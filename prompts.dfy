/** Comma-separated prompt lists (`parse_prompts` and `parse_negative_prompts`,
    cv/video_processing/door_detection.py:125-138; people_counter.py:472-486). An unset
    option is the empty string: both are falsy to the source. */
module Prompts {
  import opened PyText

  predicate AllSpace(p: string) {
    forall k :: 0 <= k < |p| ==> IsSpace(p[k])
  }

  /** Nothing but commas and white space: no prompt can come out of it. */
  predicate Blank(s: string) {
    forall k :: 0 <= k < |s| ==> s[k] == ',' || IsSpace(s[k])
  }

  /** Every piece is white space only. */
  predicate AllSpaceParts(parts: seq<string>) {
    forall i :: 0 <= i < |parts| ==> AllSpace(parts[i])
  }

  predicate IsPrompt(p: string) {
    p != "" && IsStripped(p)
  }

  /** `[p.strip() for p in parts]`, the first half of the comprehension. */
  function Stripped(parts: seq<string>): (r: seq<string>)
    ensures |r| == |parts|
    ensures forall i {:trigger r[i]} :: 0 <= i < |parts| ==> r[i] == Strip(parts[i])
    ensures forall x :: x in r ==> IsStripped(x)
  {
    if |parts| == 0 then [] else [Strip(parts[0])] + Stripped(parts[1..])
  }

  predicate AllEmpty(xs: seq<string>) {
    forall i :: 0 <= i < |xs| ==> xs[i] == ""
  }

  /** A part strips to nothing exactly when it is white space only. */
  lemma StrippedBlank(parts: seq<string>)
    ensures AllSpaceParts(parts) <==> AllEmpty(Stripped(parts))
  {
    var stripped := Stripped(parts);
    if AllSpaceParts(parts) {
      forall i | 0 <= i < |parts| ensures stripped[i] == "" {
        StripBlank(parts[i]);
      }
    }
    if AllEmpty(stripped) {
      forall i | 0 <= i < |parts| ensures AllSpace(parts[i]) {
        assert stripped[i] == Strip(parts[i]) == "";
        StripBlank(parts[i]);
      }
    }
  }

  /** A text strips to nothing exactly when it is white space only. */
  lemma StripBlank(p: string)
    ensures AllSpace(p) <==> Strip(p) == ""
  {
    var r := Strip(p);
    assert |r| == 0 <==> forall k :: 0 <= k < |p| ==> IsSpace(p[k]);
  }

  /** The `if p.strip()` filter: the non-empty texts, in order. */
  function NonEmpty(xs: seq<string>): (r: seq<string>)
    ensures |r| <= |xs|
    ensures forall x :: x in r <==> x in xs && x != ""
    ensures |r| == 0 <==> AllEmpty(xs)
  {
    if |xs| == 0 then []
    else
      var rest := NonEmpty(xs[1..]);
      assert forall i :: 1 <= i < |xs| ==> xs[i] == xs[1..][i - 1];
      if xs[0] == "" then rest else [xs[0]] + rest
  }

  /** Filtering two runs is filtering each, in order. */
  lemma {:induction false} NonEmptyAppend(a: seq<string>, b: seq<string>)
    ensures NonEmpty(a + b) == NonEmpty(a) + NonEmpty(b)
  {
    if |a| == 0 {
      assert a + b == b;
    } else {
      assert (a + b)[0] == a[0] && (a + b)[1..] == a[1..] + b;
      NonEmptyAppend(a[1..], b);
    }
  }

  /** `[p.strip() for p in parts if p.strip()]`. */
  function Pieces(parts: seq<string>): (r: seq<string>)
    ensures |r| <= |parts|
    ensures forall p :: p in r ==> IsPrompt(p)
    ensures |r| == 0 <==> AllSpaceParts(parts)
  {
    StrippedBlank(parts);
    NonEmpty(Stripped(parts))
  }

  /** Every piece is some part, stripped. */
  predicate FromParts(r: seq<string>, parts: seq<string>) {
    forall p :: p in r ==> exists i :: 0 <= i < |parts| && p == Strip(parts[i])
  }

  /** Every part that is not blank appears, stripped. */
  predicate KeepsNonBlank(r: seq<string>, parts: seq<string>) {
    forall i :: 0 <= i < |parts| && Strip(parts[i]) != "" ==> Strip(parts[i]) in r
  }

  /** The pieces are exactly the non-blank parts, stripped. */
  lemma PiecesMembers(parts: seq<string>)
    ensures FromParts(Pieces(parts), parts) && KeepsNonBlank(Pieces(parts), parts)
  {
    var stripped := Stripped(parts);
    var r := Pieces(parts);
    assert r == NonEmpty(stripped);
    forall p | p in r ensures exists i :: 0 <= i < |parts| && p == Strip(parts[i]) {
      assert p in stripped;
      var i :| 0 <= i < |stripped| && stripped[i] == p;
      assert stripped[i] == Strip(parts[i]);
    }
    forall i | 0 <= i < |parts| && Strip(parts[i]) != "" ensures Strip(parts[i]) in r {
      assert stripped[i] == Strip(parts[i]);
      assert stripped[i] in stripped;
    }
  }

  /** The pieces of two runs of parts are the pieces of each, in order. */
  lemma PiecesAppend(a: seq<string>, b: seq<string>)
    ensures Pieces(a + b) == Pieces(a) + Pieces(b)
  {
    var ab, sa, sb := Stripped(a + b), Stripped(a), Stripped(b);
    forall i | 0 <= i < |a| + |b| ensures ab[i] == (sa + sb)[i] {
      if i < |a| {
        assert (a + b)[i] == a[i] && ab[i] == Strip(a[i]) == sa[i] == (sa + sb)[i];
      } else {
        var j := i - |a|;
        assert (a + b)[i] == b[j];
        assert sb[j] == Strip(b[j]);
        assert ab[i] == sb[j] == (sa + sb)[i];
      }
    }
    assert ab == sa + sb;
    NonEmptyAppend(sa, sb);
  }

  /** One part gives its stripped text, or nothing when that is empty. */
  lemma PiecesSingle(p: string)
    ensures Pieces([p]) == if Strip(p) != "" then [Strip(p)] else []
  {
    assert Stripped([p]) == [Strip(p)];
    assert [Strip(p)][1..] == [];
  }

  /** Blank text is a blank first character followed by blank text. */
  lemma BlankCons(s: string)
    requires |s| > 0
    ensures Blank(s) <==> (s[0] == ',' || IsSpace(s[0])) && Blank(s[1..])
  {
    assert forall k :: 1 <= k < |s| ==> s[k] == s[1..][k - 1];
  }

  /** A piece is white space exactly when its first character and the rest are. */
  lemma AllSpaceCons(c: char, p: string)
    ensures AllSpace([c] + p) <==> IsSpace(c) && AllSpace(p)
  {
    var q := [c] + p;
    assert q[0] == c;
    assert forall k :: 0 <= k < |p| ==> p[k] == q[k + 1];
  }

  /** A list of pieces is white space exactly when its head and its tail are. */
  lemma AllSpacePartsCons(p: string, rest: seq<string>)
    ensures AllSpaceParts([p] + rest) <==> AllSpace(p) && AllSpaceParts(rest)
  {
    var parts := [p] + rest;
    assert parts[0] == p;
    assert forall i :: 0 <= i < |rest| ==> rest[i] == parts[i + 1];
  }

  /** Splitting at commas leaves only blank pieces exactly when the text is blank. */
  lemma {:induction false} BlankSplit(s: string)
    ensures AllSpaceParts(Split(s, ',')) <==> Blank(s)
  {
    if |s| > 0 {
      BlankSplit(s[1..]);
      BlankCons(s);
      var rest := Split(s[1..], ',');
      if s[0] == ',' {
        assert Split(s, ',') == [""] + rest;
        AllSpacePartsCons("", rest);
      } else {
        assert Split(s, ',') == [[s[0]] + rest[0]] + rest[1..];
        assert rest == [rest[0]] + rest[1..];
        AllSpacePartsCons([s[0]] + rest[0], rest[1..]);
        AllSpacePartsCons(rest[0], rest[1..]);
        AllSpaceCons(s[0], rest[0]);
      }
    }
  }

  /** `parse_prompts`: the non-blank comma-separated pieces, stripped, or the single
      `door_prompt` when there are none. */
  function ParsePrompts(doorPrompts: string, doorPrompt: string): (r: seq<string>)
    ensures |r| >= 1
    ensures r == [doorPrompt] || forall p :: p in r ==> IsPrompt(p)
  {
    if doorPrompts != "" then
      var prompts := Pieces(Split(doorPrompts, ','));
      if |prompts| > 0 then prompts else [doorPrompt]
    else
      [doorPrompt]
  }

  /** The fallback is taken exactly when the option is blank. */
  lemma PromptsFallback(doorPrompts: string, doorPrompt: string)
    ensures Blank(doorPrompts) ==> ParsePrompts(doorPrompts, doorPrompt) == [doorPrompt]
    ensures !Blank(doorPrompts) ==>
      ParsePrompts(doorPrompts, doorPrompt) == Pieces(Split(doorPrompts, ',')) &&
      |Pieces(Split(doorPrompts, ','))| > 0
  {
    BlankSplit(doorPrompts);
    var pieces := Pieces(Split(doorPrompts, ','));
    assert |pieces| == 0 <==> Blank(doorPrompts);
  }

  /** `parse_negative_prompts`: the non-blank pieces, stripped; none when unset. */
  function ParseNegativePrompts(negativePrompts: string): (r: seq<string>)
    ensures forall p :: p in r ==> IsPrompt(p)
  {
    if negativePrompts != "" then Pieces(Split(negativePrompts, ',')) else []
  }

  lemma NegativePromptsEmpty(negativePrompts: string)
    ensures |ParseNegativePrompts(negativePrompts)| == 0 <==> Blank(negativePrompts)
  {
    if negativePrompts != "" {
      var parts := Split(negativePrompts, ',');
      BlankSplit(negativePrompts);
      assert ParseNegativePrompts(negativePrompts) == Pieces(parts);
      assert |Pieces(parts)| == 0 <==> AllSpaceParts(parts);
    }
  }

  /** Stripping leaves stripped texts as they are. */
  lemma StrippedOfStripped(ps: seq<string>)
    requires forall p :: p in ps ==> IsStripped(p)
    ensures Stripped(ps) == ps
  {
    forall i | 0 <= i < |ps| ensures Stripped(ps)[i] == ps[i] {
      assert ps[i] in ps;
      StripOfStripped(ps[i]);
    }
  }

  /** The filter keeps a list with no empty text as it is. */
  lemma {:induction false} NonEmptyOfFilled(xs: seq<string>)
    requires forall x :: x in xs ==> x != ""
    ensures NonEmpty(xs) == xs
  {
    if |xs| > 0 {
      assert xs[0] in xs;
      assert forall x :: x in xs[1..] ==> x in xs;
      NonEmptyOfFilled(xs[1..]);
    }
  }

  /** Pieces keeps a list of prompts as it is. */
  lemma PiecesOfPrompts(ps: seq<string>)
    requires forall p :: p in ps ==> IsPrompt(p)
    ensures Pieces(ps) == ps
  {
    StrippedOfStripped(ps);
    NonEmptyOfFilled(ps);
  }

  /** Writing prompts out joined by commas and parsing them back gives the same list. */
  lemma PromptsRoundTrip(ps: seq<string>, doorPrompt: string)
    requires |ps| >= 1
    requires forall p :: p in ps ==> IsPrompt(p) && ',' !in p
    ensures ParsePrompts(Join(ps, ','), doorPrompt) == ps
  {
    SplitJoin(ps, ',');
    PiecesOfPrompts(ps);
    assert Join(ps, ',') != "" by {
      JoinNonEmpty(ps);
    }
  }

  lemma {:induction false} JoinNonEmpty(ps: seq<string>)
    requires |ps| >= 1 && ps[0] != ""
    ensures Join(ps, ',') != ""
  {
    if |ps| > 1 {
      assert |Join(ps, ',')| >= |ps[0]|;
    }
  }
}
