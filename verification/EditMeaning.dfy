/** When an edit is refused and what it changes, said by where the literal occurs
    (integration/local/fs.go:313-333). */
module EditMeaning {
  import opened TextEdit

  /** The literal stands at position `i`. */
  predicate OccursAt(s: string, literal: string, i: nat) { i + |literal| <= |s| && s[i..i + |literal|] == literal }

  /** Occurrences from left to right, none overlapping the next. */
  predicate Apart(s: string, literal: string, at: seq<nat>) {
    && (forall k :: 0 <= k < |at| ==> OccursAt(s, literal, at[k]))
    && (forall k, l :: 0 <= k < l < |at| ==> at[k] + |literal| <= at[l])
  }

  lemma OccursInTail(s: string, literal: string, n: nat, i: nat)
    requires n <= |s|
    ensures OccursAt(s[n..], literal, i) <==> OccursAt(s, literal, i + n)
  {
    if i + n + |literal| <= |s| { assert s[n..][i..i + |literal|] == s[i + n..i + n + |literal|]; }
  }

  lemma StartOccurs(s: string, literal: string)
    ensures StartsWith(s, literal) <==> OccursAt(s, literal, 0)
  {
    if |literal| <= |s| { assert s[0..0 + |literal|] == s[..|literal|]; }
  }

  function Shifted(at: seq<nat>, n: nat): (r: seq<nat>)
    ensures |r| == |at| && forall k :: 0 <= k < |at| ==> r[k] == at[k] + n
  {
    seq(|at|, k requires 0 <= k < |at| => at[k] + n)
  }

  /** As many occurrences as are counted lie apart from each other. */
  lemma {:induction false} CountedApart(s: string, literal: string) returns (at: seq<nat>)
    requires literal != ""
    ensures Apart(s, literal, at) && |at| == Count(s, literal)
  {
    StartOccurs(s, literal);
    if s == "" {
      at := [];
    } else {
      var n := if StartsWith(s, literal) then |literal| else 1;
      var rest := CountedApart(s[n..], literal);
      at := Shifted(rest, n);
      forall k | 0 <= k < |rest| ensures OccursAt(s, literal, at[k]) { OccursInTail(s, literal, n, rest[k]); }
      if StartsWith(s, literal) { at := [0] + at; }
    }
  }

  /** No more than that do. */
  lemma {:induction false} CountIsMost(s: string, literal: string, at: seq<nat>)
    requires literal != "" && Apart(s, literal, at)
    ensures |at| <= Count(s, literal)
  {
    if |at| > 0 {
      StartOccurs(s, literal);
      assert OccursAt(s, literal, at[0]);
      var starts := StartsWith(s, literal);
      var n := if starts then |literal| else 1;
      var kept := if starts then at[1..] else at;
      assert forall k :: 0 <= k < |kept| ==> kept[k] >= n;
      var rest := seq(|kept|, k requires 0 <= k < |kept| => (kept[k] - n) as nat);
      forall k | 0 <= k < |rest| ensures OccursAt(s[n..], literal, rest[k]) { OccursInTail(s, literal, n, rest[k]); }
      CountIsMost(s[n..], literal, rest);
    }
  }

  lemma OccursExactly(s: string, literal: string)
    requires literal != ""
    ensures Count(s, literal) == 0 <==> forall i: nat :: !OccursAt(s, literal, i)
    ensures Count(s, literal) >= 2 <==> exists i: nat, j: nat :: TwoApart(s, literal, i, j)
  {
    var at := CountedApart(s, literal);
    if Count(s, literal) > 0 { assert OccursAt(s, literal, at[0]); }
    if Count(s, literal) >= 2 { assert TwoApart(s, literal, at[0], at[1]); }
    forall i: nat | OccursAt(s, literal, i) ensures Count(s, literal) >= 1 { CountIsMost(s, literal, [i]); }
    forall i: nat, j: nat | TwoApart(s, literal, i, j) ensures Count(s, literal) >= 2 { CountIsMost(s, literal, [i, j]); }
  }

  predicate TwoApart(s: string, literal: string, i: nat, j: nat) {
    OccursAt(s, literal, i) && OccursAt(s, literal, j) && i + |literal| <= j
  }

  lemma OneFurther(s: string, other: string, j: nat, n: nat)
    requires j + 1 + n <= |s|
    ensures [s[0]] + (s[1..][..j] + other + s[1..][j + n..]) == s[..j + 1] + other + s[j + 1 + n..]
  {
    assert [s[0]] + s[1..][..j] == s[..j + 1];
    assert s[1..][j + n..] == s[j + 1 + n..];
  }

  ghost predicate Leftmost(s: string, literal: string, i: nat) {
    OccursAt(s, literal, i) && forall j: nat :: j < i ==> !OccursAt(s, literal, j)
  }

  lemma LeftmostShifts(s: string, literal: string, j: nat)
    requires s != "" && !StartsWith(s, literal) && Leftmost(s[1..], literal, j)
    ensures Leftmost(s, literal, j + 1)
  {
    StartOccurs(s, literal);
    OccursInTail(s, literal, 1, j);
    forall k: nat | k < j + 1 ensures !OccursAt(s, literal, k) {
      if k > 0 { OccursInTail(s, literal, 1, k - 1); }
    }
  }

  lemma StartIsLeftmost(s: string, literal: string)
    requires StartsWith(s, literal)
    ensures Leftmost(s, literal, 0)
  {
    StartOccurs(s, literal);
  }

  /** With one occurrence counted, the leftmost one is replaced and nothing else changes. */
  lemma {:induction false} ReplacesLeftmost(s: string, literal: string, other: string) returns (i: nat)
    requires literal != "" && Count(s, literal) == 1
    ensures Leftmost(s, literal, i)
    ensures ReplaceAll(s, literal, other) == s[..i] + other + s[i + |literal|..]
  {
    if StartsWith(s, literal) {
      i := 0;
      StartIsLeftmost(s, literal);
      NoneToReplace(s[|literal|..], literal, other);
      assert s[..0] + other == other;
    } else {
      var j := ReplacesLeftmost(s[1..], literal, other);
      i := j + 1;
      LeftmostShifts(s, literal, j);
      OneFurther(s, other, j, |literal|);
    }
  }

  /** The literal is not found exactly when it occurs nowhere in the decoded file, it is ambiguous
      exactly when two occurrences lie apart and not all were asked for, and an edit counts as many
      occurrences as can lie apart. */
  lemma RefusedExactly(content: string, find: string, put: string, all: bool)
    requires find != ""
    ensures EditFile(content, find, put, all) == Refused(NotFound)
       <==> forall i: nat :: !OccursAt(Decode(content), Decode(find), i)
    ensures EditFile(content, find, put, all) == Refused(Ambiguous)
       <==> !all && exists i: nat, j: nat :: TwoApart(Decode(content), Decode(find), i, j)
    ensures EditFile(content, find, put, all).Refused? ==> EditFile(content, find, put, all).error in {NotFound, Ambiguous}
  {
    DecodeNonEmpty(find);
    OccursExactly(Decode(content), Decode(find));
  }

  lemma ReplacedExactly(content: string, find: string, put: string, all: bool) returns (at: seq<nat>)
    requires find != "" && EditFile(content, find, put, all).Edited?
    ensures Apart(Decode(content), Decode(find), at) && |at| == EditFile(content, find, put, all).replaced
    ensures forall other :: Apart(Decode(content), Decode(find), other) ==> |other| <= |at|
    ensures !all ==> |at| == 1
  {
    DecodeNonEmpty(find);
    at := CountedApart(Decode(content), Decode(find));
    forall other | Apart(Decode(content), Decode(find), other) ensures |other| <= |at| {
      CountIsMost(Decode(content), Decode(find), other);
    }
  }

  /** The only occurrence is replaced where it stands. */
  lemma OnlyOneChanges(content: string, find: string, put: string, all: bool) returns (i: nat)
    requires find != "" && EditFile(content, find, put, all).Edited? && EditFile(content, find, put, all).replaced == 1
    ensures Leftmost(Decode(content), Decode(find), i)
    ensures
      var text := Decode(content);
      var edited := text[..i] + Decode(put) + text[i + |Decode(find)|..];
      EditFile(content, find, put, all).content == if UsesCrlf(content) then Encode(edited) else edited
  {
    DecodeNonEmpty(find);
    i := ReplacesLeftmost(Decode(content), Decode(find), Decode(put));
  }
}
