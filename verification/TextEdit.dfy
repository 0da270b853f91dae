/** Literal edits that keep a file's line endings (integration/local/fs.go:281-345,
    integration/local/fs.go:671-674). Text is a sequence of characters; a file's version is its
    content's digest, modelled by the content itself. */
module TextEdit {
  import Events

  // ---------------------------------------------------------------- literal search and replace

  predicate StartsWith(s: string, literal: string) { |literal| <= |s| && s[..|literal|] == literal }

  /** How many non-overlapping occurrences a left-to-right scan meets. */
  function Count(s: string, literal: string): nat
    requires literal != ""
  {
    if s == "" then 0
    else if StartsWith(s, literal) then 1 + Count(s[|literal|..], literal)
    else Count(s[1..], literal)
  }

  /** Replaces the first `limit` of those occurrences. */
  function Replace(s: string, literal: string, other: string, limit: nat): string
    requires literal != ""
  {
    if s == "" || limit == 0 then s
    else if StartsWith(s, literal) then other + Replace(s[|literal|..], literal, other, limit - 1)
    else [s[0]] + Replace(s[1..], literal, other, limit)
  }

  function ReplaceAll(s: string, literal: string, other: string): string
    requires literal != ""
  {
    if s == "" then s
    else if StartsWith(s, literal) then other + ReplaceAll(s[|literal|..], literal, other)
    else [s[0]] + ReplaceAll(s[1..], literal, other)
  }

  // ---------------------------------------------------------------- what replacing means

  /** The stretches between the occurrences. */
  function Pieces(s: string, literal: string): (r: seq<string>)
    requires literal != ""
    ensures |r| == Count(s, literal) + 1
  {
    if s == "" then [""]
    else if StartsWith(s, literal) then [""] + Pieces(s[|literal|..], literal)
    else
      var rest := Pieces(s[1..], literal);
      [[s[0]] + rest[0]] + rest[1..]
  }

  function Join(pieces: seq<string>, other: string): string {
    if |pieces| == 0 then "" else if |pieces| == 1 then pieces[0] else pieces[0] + other + Join(pieces[1..], other)
  }

  lemma JoinFront(pieces: seq<string>, other: string)
    requires |pieces| > 0
    ensures Join([""] + pieces, other) == other + Join(pieces, other)
  {
    assert ([""] + pieces)[1..] == pieces;
    assert "" + other + Join(pieces, other) == other + Join(pieces, other);
  }

  /** Replacing every occurrence joins the pieces with the new literal. */
  lemma {:induction false} ReplaceJoins(s: string, literal: string, other: string)
    requires literal != ""
    ensures ReplaceAll(s, literal, other) == Join(Pieces(s, literal), other)
  {
    if s != "" {
      if StartsWith(s, literal) {
        ReplaceJoins(s[|literal|..], literal, other);
        JoinFront(Pieces(s[|literal|..], literal), other);
      } else {
        ReplaceJoins(s[1..], literal, other);
        JoinHead(Pieces(s[1..], literal), [s[0]], other);
      }
    }
  }

  /** Joining them with the old literal gives the text back. */
  lemma {:induction false} PiecesJoinBack(s: string, literal: string)
    requires literal != ""
    ensures Join(Pieces(s, literal), literal) == s
  {
    ReplaceJoins(s, literal, literal);
    ReplaceBySelf(s, literal);
  }

  lemma {:induction false} ReplaceBySelf(s: string, literal: string)
    requires literal != ""
    ensures ReplaceAll(s, literal, literal) == s
  {
    if s != "" {
      if StartsWith(s, literal) {
        ReplaceBySelf(s[|literal|..], literal);
        assert s == literal + s[|literal|..];
      } else {
        ReplaceBySelf(s[1..], literal);
        assert s == [s[0]] + s[1..];
      }
    }
  }

  lemma {:induction false} FirstPieceIsPrefix(s: string, literal: string)
    requires literal != ""
    ensures Pieces(s, literal)[0] <= s
  {
    if s != "" && !StartsWith(s, literal) {
      FirstPieceIsPrefix(s[1..], literal);
      assert s == [s[0]] + s[1..];
    }
  }

  lemma PrefixStarts(s: string, piece: string, literal: string)
    requires piece <= s && StartsWith(piece, literal)
    ensures StartsWith(s, literal)
  {
    assert s[..|literal|] == piece[..|literal|];
  }

  /** No piece holds an occurrence. */
  lemma {:induction false} PiecesAreFree(s: string, literal: string, k: nat)
    requires literal != "" && k < |Pieces(s, literal)|
    ensures Count(Pieces(s, literal)[k], literal) == 0
  {
    if s != "" {
      if StartsWith(s, literal) {
        if k > 0 { PiecesAreFree(s[|literal|..], literal, k - 1); }
      } else {
        PiecesAreFree(s[1..], literal, k);
        if k == 0 {
          var piece := Pieces(s, literal)[0];
          FirstPieceIsPrefix(s, literal);
          assert piece[1..] == Pieces(s[1..], literal)[0];
          if StartsWith(piece, literal) { PrefixStarts(s, piece, literal); }
        }
      }
    }
  }

  lemma JoinHead(pieces: seq<string>, head: string, other: string)
    requires |pieces| > 0
    ensures Join([head + pieces[0]] + pieces[1..], other) == head + Join(pieces, other)
  {
    var with := [head + pieces[0]] + pieces[1..];
    assert with[1..] == pieces[1..];
    if |pieces| > 1 {
      assert (head + pieces[0]) + other + Join(pieces[1..], other) == head + (pieces[0] + other + Join(pieces[1..], other));
    }
  }

  /** A limit at or above the count replaces everything. */
  lemma {:induction false} LimitCovers(s: string, literal: string, other: string, limit: nat)
    requires literal != "" && Count(s, literal) <= limit
    ensures Replace(s, literal, other, limit) == ReplaceAll(s, literal, other)
  {
    if s != "" {
      if StartsWith(s, literal) {
        LimitCovers(s[|literal|..], literal, other, limit - 1);
      } else if limit == 0 {
        LimitCovers(s[1..], literal, other, limit);
        assert Replace(s[1..], literal, other, 0) == s[1..];
        assert s == [s[0]] + s[1..];
      } else {
        LimitCovers(s[1..], literal, other, limit);
      }
    }
  }

  lemma OneMore(n: int, d: int)
    ensures (1 + n) * d == d + n * d
  {
  }

  /** The length changes by the difference of the literals, once per occurrence. */
  lemma {:induction false} ReplaceLength(s: string, literal: string, other: string)
    requires literal != ""
    ensures |ReplaceAll(s, literal, other)| == |s| + Count(s, literal) * (|other| - |literal|)
  {
    if s != "" {
      if StartsWith(s, literal) {
        ReplaceLength(s[|literal|..], literal, other);
        OneMore(Count(s[|literal|..], literal), |other| - |literal|);
      } else {
        ReplaceLength(s[1..], literal, other);
      }
    }
  }

  // ---------------------------------------------------------------- line endings

  const CRLF := "\r\n"
  const LF := "\n"

  function Decode(s: string): string { ReplaceAll(s, CRLF, LF) }
  function Encode(s: string): string { ReplaceAll(s, LF, CRLF) }

  /** The dominant style, as the source counts it. */
  predicate UsesCrlf(s: string) { Count(s, CRLF) > Count(ReplaceAll(s, CRLF, ""), LF) }

  /** Every line feed follows a carriage return. */
  ghost predicate PureCrlf(s: string) { forall i :: 0 <= i < |s| && s[i] == '\n' ==> i > 0 && s[i - 1] == '\r' }

  lemma StartsLf(s: string)
    ensures StartsWith(s, LF) <==> |s| > 0 && s[0] == '\n'
  {
    if |s| > 0 { assert s[..1] == [s[0]]; }
  }

  lemma StartsCrlf(s: string)
    ensures StartsWith(s, CRLF) <==> |s| > 1 && s[0] == '\r' && s[1] == '\n'
  {
    if |s| > 1 { assert s[..2] == [s[0], s[1]]; }
  }

  lemma EncodeStep(s: string)
    requires s != ""
    ensures Encode(s) == (if s[0] == '\n' then CRLF else [s[0]]) + Encode(s[1..])
  {
    StartsLf(s);
  }

  lemma DecodeStep(s: string)
    requires s != ""
    ensures Decode(s) == if |s| > 1 && s[0] == '\r' && s[1] == '\n' then LF + Decode(s[2..]) else [s[0]] + Decode(s[1..])
  {
    StartsCrlf(s);
  }

  lemma EncodeHead(s: string)
    ensures |Encode(s)| > 0 ==> Encode(s)[0] != '\n'
  {
    if s != "" { EncodeStep(s); }
  }

  /** LF to CRLF and back is the identity on every text. */
  lemma {:induction false} EncodeThenDecode(s: string)
    ensures Decode(Encode(s)) == s
  {
    if s != "" {
      var rest := Encode(s[1..]);
      EncodeThenDecode(s[1..]);
      EncodeStep(s);
      EncodeHead(s[1..]);
      assert s == [s[0]] + s[1..];
      DecodeStep(Encode(s));
      if s[0] == '\n' {
        assert Encode(s)[2..] == rest;
      } else {
        assert Encode(s)[1..] == rest;
      }
    }
  }

  lemma PureTail(s: string, n: nat)
    requires PureCrlf(s) && n <= |s| && (n == 0 || n == |s| || s[n] != '\n')
    ensures PureCrlf(s[n..])
  {
    forall i | 0 <= i < |s[n..]| && s[n..][i] == '\n' ensures i > 0 && s[n..][i - 1] == '\r' {
      assert s[n + i] == '\n';
      if i > 0 { assert s[n..][i - 1] == s[n + i - 1]; }
    }
  }

  /** What is encoded uses carriage returns throughout. */
  lemma {:induction false} EncodedIsPure(s: string)
    ensures PureCrlf(Encode(s))
  {
    if s != "" {
      EncodeStep(s);
      EncodedIsPure(s[1..]);
      EncodeHead(s[1..]);
      var head, rest := if s[0] == '\n' then CRLF else [s[0]], Encode(s[1..]);
      forall i | 0 <= i < |head + rest| && (head + rest)[i] == '\n' ensures i > 0 && (head + rest)[i - 1] == '\r' {
        if i > |head| { assert rest[i - |head|] == '\n'; }
      }
    }
  }

  /** CRLF to LF and back is the identity on texts that use carriage returns throughout. */
  lemma {:induction false} DecodeThenEncode(s: string)
    requires PureCrlf(s)
    ensures Encode(Decode(s)) == s
  {
    if s != "" {
      DecodeStep(s);
      if |s| > 1 && s[0] == '\r' && s[1] == '\n' {
        PureTail(s, 2);
        DecodeThenEncode(s[2..]);
        EncodeStep(Decode(s));
        assert Decode(s)[1..] == Decode(s[2..]);
        assert s == CRLF + s[2..];
      } else {
        PureTail(s, 1);
        DecodeThenEncode(s[1..]);
        EncodeStep(Decode(s));
        assert Decode(s)[1..] == Decode(s[1..]);
        assert s == [s[0]] + s[1..];
      }
    }
  }

  /** Removing the CRLF pairs leaves the bare line feeds. */
  lemma {:induction false} BareLineFeeds(s: string)
    ensures Count(ReplaceAll(s, CRLF, ""), LF) + Count(s, CRLF) == Count(s, LF)
  {
    if s != "" {
      StartsCrlf(s);
      StartsLf(s);
      if StartsWith(s, CRLF) {
        BareLineFeeds(s[2..]);
        StartsLf(s[1..]);
        assert s[1..][1..] == s[2..];
        assert "" + ReplaceAll(s[2..], CRLF, "") == ReplaceAll(s[2..], CRLF, "");
      } else {
        BareLineFeeds(s[1..]);
        var t := [s[0]] + ReplaceAll(s[1..], CRLF, "");
        StartsLf(t);
        assert t[1..] == ReplaceAll(s[1..], CRLF, "");
      }
    }
  }

  /** A file counts as CRLF exactly when more than half of its line feeds are part of a CRLF. */
  lemma DominantStyle(s: string)
    ensures UsesCrlf(s) <==> 2 * Count(s, CRLF) > Count(s, LF)
  {
    BareLineFeeds(s);
  }

  lemma {:induction false} PureCounts(s: string)
    requires PureCrlf(s)
    ensures Count(s, CRLF) == Count(s, LF)
    ensures '\n' in s ==> Count(s, LF) > 0
  {
    if s != "" {
      StartsCrlf(s);
      StartsLf(s);
      if StartsWith(s, CRLF) {
        PureTail(s, 2);
        PureCounts(s[2..]);
        StartsLf(s[1..]);
        assert s[1..][1..] == s[2..];
      } else {
        PureTail(s, 1);
        PureCounts(s[1..]);
        assert s == [s[0]] + s[1..];
      }
    }
  }

  lemma PureUsesCrlf(s: string)
    requires PureCrlf(s) && '\n' in s
    ensures UsesCrlf(s)
  {
    PureCounts(s);
    DominantStyle(s);
  }

  /** Decoding changes exactly the texts that hold a CRLF. */
  lemma {:induction false} DecodeFixes(s: string)
    ensures Decode(s) == s <==> Count(s, CRLF) == 0
  {
    ReplaceLength(s, CRLF, LF);
    if Count(s, CRLF) == 0 { NoneToReplace(s, CRLF, LF); }
  }

  lemma {:induction false} NoneToReplace(s: string, literal: string, other: string)
    requires literal != "" && Count(s, literal) == 0
    ensures ReplaceAll(s, literal, other) == s
  {
    if s != "" {
      NoneToReplace(s[1..], literal, other);
      assert s == [s[0]] + s[1..];
    }
  }

  lemma DecodeNonEmpty(s: string)
    requires s != ""
    ensures Decode(s) != ""
  {
    DecodeStep(s);
  }

  // ---------------------------------------------------------------- the edit

  datatype EditError = EmptyOld | NoOp | Missing | Stale | NotFound | Ambiguous

  datatype EditResult = Edited(content: string, replaced: nat) | Refused(error: EditError)

  /** The edit on text with bare line feeds: the only occurrence, or all of them. */
  function EditLf(text: string, find: string, put: string, all: bool): EditResult
    requires find != ""
  {
    var n := Count(text, find);
    if n == 0 then Refused(NotFound)
    else if n > 1 && !all then Refused(Ambiguous)
    else Edited(ReplaceAll(text, find, put), n)
  }

  /** The edit of a file: decode, edit, and write back in the file's own style. */
  function EditFile(content: string, find: string, put: string, all: bool): EditResult
    requires find != ""
  {
    DecodeNonEmpty(find);
    var r := EditLf(Decode(content), Decode(find), Decode(put), all);
    if r.Edited? && UsesCrlf(content) then r.(content := Encode(r.content)) else r
  }

  /** One text file. */
  class TextFile {
    var present: bool
    var content: string

    method EditText(find: string, put: string, all: bool, expected: Events.Option<string>) returns (r: EditResult)
      modifies this`content
      ensures r == if find == "" then Refused(EmptyOld)
                   else if find == put then Refused(NoOp)
                   else if !present then Refused(Missing)
                   else if expected.Some? && expected.value != old(content) then Refused(Stale)
                   else EditFile(old(content), find, put, all)
      ensures content == if r.Edited? then r.content else old(content)
    {
      if find == "" {
        return Refused(EmptyOld);
      }
      if find == put {
        return Refused(NoOp);
      }
      if !present {
        return Refused(Missing);
      }
      if expected.Some? && expected.value != content {
        return Refused(Stale);
      }
      var normalized, crlf := Decode(content), UsesCrlf(content);
      var oldString, newString := Decode(find), Decode(put);
      DecodeNonEmpty(find);
      var count := Count(normalized, oldString);
      if count == 0 {
        return Refused(NotFound);
      }
      if count > 1 && !all {
        return Refused(Ambiguous);
      }
      var newText := normalized;
      if all {
        newText := ReplaceAll(normalized, oldString, newString);
      } else {
        LimitCovers(normalized, oldString, newString, 1);
        newText := Replace(normalized, oldString, newString, 1);
      }
      if crlf {
        newText := Encode(newText);
      }
      content := newText;
      return Edited(newText, count);
    }
  }

  // ---------------------------------------------------------------- edits and line endings

  /** What the edit would do to the decoded file. */
  function DecodedEdit(content: string, find: string, put: string, all: bool): EditResult
    requires find != ""
  {
    DecodeNonEmpty(find);
    EditLf(Decode(content), Decode(find), Decode(put), all)
  }

  /** On a file that uses carriage returns throughout, editing and decoding commute, the edited file
      still uses them throughout, and the decoded length changes once per replacement. */
  lemma EditsCommuteWithLineEndings(content: string, find: string, put: string, all: bool)
    requires find != "" && PureCrlf(content) && '\n' in content
    ensures EditFile(content, find, put, all).Edited? <==> DecodedEdit(content, find, put, all).Edited?
    ensures EditFile(content, find, put, all).Edited? ==>
              Decode(EditFile(content, find, put, all).content) == DecodedEdit(content, find, put, all).content
    ensures EditFile(content, find, put, all).Edited? ==> PureCrlf(EditFile(content, find, put, all).content)
    ensures EditFile(content, find, put, all).Edited? ==>
              |Decode(EditFile(content, find, put, all).content)|
              == |Decode(content)| + EditFile(content, find, put, all).replaced * (|Decode(put)| - |Decode(find)|)
  {
    PureUsesCrlf(content);
    DecodeNonEmpty(find);
    var r := DecodedEdit(content, find, put, all);
    if r.Edited? {
      EncodeThenDecode(r.content);
      EncodedIsPure(r.content);
      ReplaceLength(Decode(content), Decode(find), Decode(put));
    }
  }

  // ---------------------------------------------------------------- where a CRLF comes from

  ghost predicate HasCrlf(s: string) { exists i :: CrlfAt(s, i) }

  predicate CrlfAt(s: string, i: int) { 0 <= i < |s| - 1 && s[i] == '\r' && s[i + 1] == '\n' }

  lemma HasCrlfStep(s: string)
    requires s != ""
    ensures HasCrlf(s) <==> CrlfAt(s, 0) || HasCrlf(s[1..])
  {
    var t := s[1..];
    forall i ensures CrlfAt(t, i) <==> CrlfAt(s, i + 1) && i >= 0 {}
    if HasCrlf(s) {
      var i :| CrlfAt(s, i);
      if i > 0 { assert CrlfAt(t, i - 1); }
    }
    if HasCrlf(t) {
      var i :| CrlfAt(t, i);
      assert CrlfAt(s, i + 1);
    }
  }

  /** The scan finds a CRLF exactly when there is one. */
  lemma {:induction false} CountFindsCrlf(s: string)
    ensures Count(s, CRLF) > 0 <==> HasCrlf(s)
  {
    if s != "" {
      StartsCrlf(s);
      HasCrlfStep(s);
      if !StartsWith(s, CRLF) { CountFindsCrlf(s[1..]); }
    }
  }

  function Flat(parts: seq<string>): string {
    if |parts| == 0 then "" else parts[0] + Flat(parts[1..])
  }

  predicate EndsReturn(s: string) { s != "" && s[|s| - 1] == '\r' }

  predicate StartsFeed(s: string) { s != "" && s[0] == '\n' }

  /** The first part with anything in it starts with a line feed. */
  ghost predicate FeedFirst(parts: seq<string>) { exists j :: FeedFirstAt(parts, j) }

  ghost predicate FeedFirstAt(parts: seq<string>, j: int) {
    0 <= j < |parts| && StartsFeed(parts[j]) && forall k :: 0 <= k < j ==> parts[k] == ""
  }

  /** A part ends with a carriage return and what follows it starts with a line feed. */
  ghost predicate SeamAt(parts: seq<string>, i: int) {
    0 <= i < |parts| && EndsReturn(parts[i]) && FeedFirst(parts[i + 1..])
  }

  /** A CRLF lies in one part, or arises where parts meet. */
  ghost predicate PartsHoldCrlf(parts: seq<string>) {
    (exists k :: 0 <= k < |parts| && HasCrlf(parts[k])) || exists i :: SeamAt(parts, i)
  }

  lemma HasCrlfConcat(a: string, b: string)
    ensures HasCrlf(a + b) <==> HasCrlf(a) || HasCrlf(b) || (EndsReturn(a) && StartsFeed(b))
  {
    var s := a + b;
    if HasCrlf(a) {
      var i :| CrlfAt(a, i);
      assert CrlfAt(s, i);
    }
    if HasCrlf(b) {
      var i :| CrlfAt(b, i);
      assert CrlfAt(s, |a| + i);
    }
    if EndsReturn(a) && StartsFeed(b) {
      assert CrlfAt(s, |a| - 1);
    }
    if HasCrlf(s) {
      var i :| CrlfAt(s, i);
      if i < |a| - 1 {
        assert CrlfAt(a, i);
      } else if i >= |a| {
        assert CrlfAt(b, i - |a|);
      }
    }
  }

  lemma FeedFirstStep(parts: seq<string>)
    requires |parts| > 0
    ensures FeedFirst(parts) <==> StartsFeed(parts[0]) || (parts[0] == "" && FeedFirst(parts[1..]))
  {
    var rest := parts[1..];
    if FeedFirst(parts) {
      var j :| FeedFirstAt(parts, j);
      if j > 0 {
        assert parts[0] == "";
        assert FeedFirstAt(rest, j - 1);
      }
    }
    if StartsFeed(parts[0]) {
      assert FeedFirstAt(parts, 0);
    } else if parts[0] == "" && FeedFirst(rest) {
      var j :| FeedFirstAt(rest, j);
      assert FeedFirstAt(parts, j + 1);
    }
  }

  lemma {:induction false} FlatStarts(parts: seq<string>)
    ensures StartsFeed(Flat(parts)) <==> FeedFirst(parts)
  {
    if |parts| > 0 {
      FlatStarts(parts[1..]);
      FeedFirstStep(parts);
      if parts[0] == "" { assert Flat(parts) == Flat(parts[1..]); }
    }
  }

  lemma PartsStep(parts: seq<string>)
    requires |parts| > 0
    ensures PartsHoldCrlf(parts)
       <==> HasCrlf(parts[0]) || PartsHoldCrlf(parts[1..]) || (EndsReturn(parts[0]) && FeedFirst(parts[1..]))
  {
    var rest := parts[1..];
    forall i | 0 <= i < |rest| ensures rest[i + 1..] == parts[i + 2..] && rest[i] == parts[i + 1] {}
    if exists k :: 0 <= k < |parts| && HasCrlf(parts[k]) {
      var k :| 0 <= k < |parts| && HasCrlf(parts[k]);
      if k > 0 { assert HasCrlf(rest[k - 1]); }
    }
    if exists k :: 0 <= k < |rest| && HasCrlf(rest[k]) {
      var k :| 0 <= k < |rest| && HasCrlf(rest[k]);
      assert HasCrlf(parts[k + 1]);
    }
    SeamsStep(parts);
  }

  lemma SeamsStep(parts: seq<string>)
    requires |parts| > 0
    ensures (exists i :: SeamAt(parts, i)) <==> SeamAt(parts, 0) || exists i :: SeamAt(parts[1..], i)
  {
    var rest := parts[1..];
    forall i | 0 <= i < |rest| ensures rest[i + 1..] == parts[i + 2..] && rest[i] == parts[i + 1] {}
    if i :| SeamAt(parts, i) {
      if i > 0 { assert SeamAt(rest, i - 1); }
    }
    if i :| SeamAt(rest, i) {
      assert SeamAt(parts, i + 1);
    }
  }

  lemma {:induction false} FlatHoldsCrlf(parts: seq<string>)
    ensures HasCrlf(Flat(parts)) <==> PartsHoldCrlf(parts)
  {
    if |parts| > 0 {
      FlatHoldsCrlf(parts[1..]);
      FlatStarts(parts[1..]);
      HasCrlfConcat(parts[0], Flat(parts[1..]));
      PartsStep(parts);
    }
  }

  /** The pieces of a text with the new literal between them. */
  function Between(pieces: seq<string>, other: string): seq<string> {
    if |pieces| <= 1 then pieces else [pieces[0], other] + Between(pieces[1..], other)
  }

  lemma {:induction false} JoinIsFlat(pieces: seq<string>, other: string)
    ensures Join(pieces, other) == Flat(Between(pieces, other))
  {
    if |pieces| == 1 {
      assert Flat(pieces[1..]) == "" && pieces[0] + "" == pieces[0];
    } else if |pieces| > 1 {
      var rest := Between(pieces[1..], other);
      JoinIsFlat(pieces[1..], other);
      assert ([pieces[0], other] + rest)[1..] == [other] + rest && ([other] + rest)[1..] == rest;
      assert pieces[0] + other + Flat(rest) == pieces[0] + (other + Flat(rest));
    }
  }

  /** For any file: reading the edited file back gives the edited text exactly when the file counts
      as CRLF, or no CRLF lies in the new text, in a stretch of the file between the replaced
      occurrences, or where one of these ends with a carriage return and the next starts with a line
      feed. */
  lemma EditReadsBackExactly(content: string, find: string, put: string, all: bool)
    requires find != "" && EditFile(content, find, put, all).Edited?
    ensures Decode(find) != ""
    ensures Decode(EditFile(content, find, put, all).content) == DecodedEdit(content, find, put, all).content
       <==> UsesCrlf(content) || !PartsHoldCrlf(Between(Pieces(Decode(content), Decode(find)), Decode(put)))
  {
    DecodeNonEmpty(find);
    var t := DecodedEdit(content, find, put, all).content;
    EncodeThenDecode(t);
    DecodeFixes(t);
    CountFindsCrlf(t);
    ReplaceJoins(Decode(content), Decode(find), Decode(put));
    JoinIsFlat(Pieces(Decode(content), Decode(find)), Decode(put));
    FlatHoldsCrlf(Between(Pieces(Decode(content), Decode(find)), Decode(put)));
  }

  /** An edit that does not read back: a carriage return put before a bare line feed. */
  lemma InsertedReturnIsSwallowed()
    ensures var r := EditFile("a\n", "a", "\r", false);
            r == Edited("\r\n", 1) && DecodedEdit("a\n", "a", "\r", false) == r && Decode(r.content) == "\n"
  {
    var s := "a\n";
    assert s[1..] == "\n" && "\n"[1..] == "" && "a"[1..] == "" && "\r"[1..] == "" && "\r\n"[2..] == "";
    DecodeStep("\n");
    DecodeStep("a");
    DecodeStep("\r");
    DecodeStep(s);
    DecodeStep("\r\n");
    assert s[..1] == "a" && "\n"[..1] == "\n";
    assert Count("\n", "a") == 0 && Count(s, "a") == 1;
    assert ReplaceAll("\n", "a", "\r") == "\n" && ReplaceAll(s, "a", "\r") == "\r\n";
    assert Count(s, CRLF) == 0 by { DecodeFixes(s); }
  }
}
