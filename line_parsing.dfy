/**
 * The response-body parser of `fetchFromEndpoint`: trim the body, split it on
 * `\r?\n`, trim every line, drop blank lines and `#` comments. Order is kept and
 * duplicates are not removed.
 */
module LineParsing {

  // ---------------------------------------------------------------------------
  // PHP trim()
  // ---------------------------------------------------------------------------

  /** The characters PHP's trim() strips by default: space, tab, LF, CR, NUL, vertical tab. */
  predicate IsTrimChar(c: char) {
    c == ' ' || c == '\t' || c == '\n' || c == '\r' || c == '\0' || c == '\U{000B}'
  }

  predicate AllTrimChars(s: string) {
    forall i :: 0 <= i < |s| ==> IsTrimChar(s[i])
  }

  /** Neither end of `s` is a character trim() would strip. */
  predicate IsTrimmed(s: string) {
    s == [] || (!IsTrimChar(s[0]) && !IsTrimChar(s[|s| - 1]))
  }

  /** Strips trim characters from the front. */
  function TrimStart(s: string): string
    decreases |s|
  {
    if |s| > 0 && IsTrimChar(s[0]) then TrimStart(s[1..]) else s
  }

  /** Strips trim characters from the back. */
  function TrimEnd(s: string): string
    decreases |s|
  {
    if |s| > 0 && IsTrimChar(s[|s| - 1]) then TrimEnd(s[..|s| - 1]) else s
  }

  /** TrimStart removes a run of trim characters and stops at the first other character. */
  lemma {:induction false} TrimStartShape(s: string)
    ensures var r := TrimStart(s);
            |r| <= |s| && r == s[|s| - |r|..]
            && (forall i :: 0 <= i < |s| - |r| ==> IsTrimChar(s[i]))
            && (r == [] || !IsTrimChar(r[0]))
    decreases |s|
  {
    if |s| > 0 && IsTrimChar(s[0]) {
      TrimStartShape(s[1..]);
      assert forall i :: 1 <= i < |s| ==> s[i] == s[1..][i - 1];
    }
  }

  /** TrimEnd removes a run of trim characters and stops at the last other character. */
  lemma {:induction false} TrimEndShape(s: string)
    ensures var r := TrimEnd(s);
            |r| <= |s| && r == s[..|r|]
            && (forall i :: |r| <= i < |s| ==> IsTrimChar(s[i]))
            && (r == [] || !IsTrimChar(r[|r| - 1]))
    decreases |s|
  {
    if |s| > 0 && IsTrimChar(s[|s| - 1]) {
      var init := s[..|s| - 1];
      TrimEndShape(init);
      assert forall i :: 0 <= i < |init| ==> s[i] == init[i];
    }
  }

  /** PHP trim(): the result has no trim character at either end. */
  function Trim(s: string): (r: string)
    ensures IsTrimmed(r)
  {
    TrimStartShape(s);
    TrimEndShape(TrimStart(s));
    TrimEnd(TrimStart(s))
  }

  /** The result of trim() is empty exactly when `s` is blank. */
  lemma TrimBlank(s: string)
    ensures Trim(s) == [] <==> AllTrimChars(s)
  {
    var t := TrimStart(s);
    TrimStartShape(s);
    TrimEndShape(t);
    if t == [] {
      assert s[|s| - |t|..] == [];
    }
  }

  /** The characters TrimStart removed, as a prefix of `s`. */
  lemma TrimStartSplit(s: string) returns (front: string)
    ensures s == front + TrimStart(s) && AllTrimChars(front)
  {
    TrimStartShape(s);
    front := s[..|s| - |TrimStart(s)|];
    assert forall i :: 0 <= i < |front| ==> front[i] == s[i];
  }

  /** The characters TrimEnd removed, as a suffix of `t`. */
  lemma TrimEndSplit(t: string) returns (back: string)
    ensures t == TrimEnd(t) + back && AllTrimChars(back)
  {
    TrimEndShape(t);
    back := t[|TrimEnd(t)|..];
    assert forall i :: 0 <= i < |back| ==> back[i] == t[|TrimEnd(t)| + i];
  }

  /** What trim() removed: `s` is the trimmed text padded by trim characters on both sides. */
  lemma TrimSplits(s: string) returns (front: string, back: string)
    ensures s == front + Trim(s) + back
    ensures AllTrimChars(front) && AllTrimChars(back)
  {
    front := TrimStartSplit(s);
    back := TrimEndSplit(TrimStart(s));
    assert front + (Trim(s) + back) == front + Trim(s) + back;
  }

  /** trim() only removes characters: a line feed in the result was in the input. */
  lemma TrimAddsNoLineFeed(s: string)
    ensures '\n' in Trim(s) ==> '\n' in s
  {
    var front, back := TrimSplits(s);
    var r := Trim(s);
    if '\n' in r {
      var k :| 0 <= k < |r| && r[k] == '\n';
      assert s[|front| + k] == r[k];
    }
  }

  lemma {:induction false} TrimStartSkips(front: string, t: string)
    requires AllTrimChars(front)
    requires t == [] || !IsTrimChar(t[0])
    ensures TrimStart(front + t) == t
    decreases |front|
  {
    if front == [] {
      assert front + t == t;
    } else {
      assert (front + t)[1..] == front[1..] + t;
      TrimStartSkips(front[1..], t);
    }
  }

  lemma {:induction false} TrimEndSkips(t: string, back: string)
    requires AllTrimChars(back)
    requires t == [] || !IsTrimChar(t[|t| - 1])
    ensures TrimEnd(t + back) == t
    decreases |back|
  {
    if back == [] {
      assert t + back == t;
    } else {
      var s := t + back;
      assert s[..|s| - 1] == t + back[..|back| - 1];
      TrimEndSkips(t, back[..|back| - 1]);
    }
  }

  /** Round trip of trim(): padding a trimmed text with trim characters on either side
      and trimming gives the text back. */
  lemma TrimPadded(front: string, x: string, back: string)
    requires AllTrimChars(front) && AllTrimChars(back) && IsTrimmed(x)
    ensures Trim(front + x + back) == x
  {
    if x == [] {
      assert AllTrimChars(front + x + back);
      TrimBlank(front + x + back);
    } else {
      assert front + x + back == front + (x + back);
      TrimStartSkips(front, x + back);
      TrimEndSkips(x, back);
    }
  }

  /** trim() leaves a trimmed string alone; hence trim() is idempotent. */
  lemma TrimOfTrimmed(x: string)
    requires IsTrimmed(x)
    ensures Trim(x) == x
  {
    TrimPadded([], x, []);
    assert [] + x + [] == x;
  }

  lemma TrimIdempotent(s: string)
    ensures Trim(Trim(s)) == Trim(s)
  {
    TrimOfTrimmed(Trim(s));
  }

  // ---------------------------------------------------------------------------
  // preg_split('/\r?\n/', ...)
  // ---------------------------------------------------------------------------

  /** Index of the first line feed in `s`, or |s| when there is none. */
  function LineFeedIndex(s: string): (i: nat)
    ensures i <= |s|
    ensures i < |s| ==> s[i] == '\n'
    ensures forall k :: 0 <= k < i ==> s[k] != '\n'
    decreases |s|
  {
    if s == [] || s[0] == '\n' then 0 else 1 + LineFeedIndex(s[1..])
  }

  /** The optional `\r` of the separator `\r?\n`, removed from the end of the piece before it. */
  function DropCarriageReturn(piece: string): string {
    if |piece| > 0 && piece[|piece| - 1] == '\r' then piece[..|piece| - 1] else piece
  }

  /** preg_split('/\r?\n/', s): the pieces between separators, in order. There is always at
      least one piece, and no piece holds a line feed. */
  function SplitLines(s: string): (lines: seq<string>)
    ensures |lines| >= 1
    ensures forall k :: 0 <= k < |lines| ==> '\n' !in lines[k]
    decreases |s|
  {
    var i := LineFeedIndex(s);
    if i == |s| then [s] else [DropCarriageReturn(s[..i])] + SplitLines(s[i + 1..])
  }

  /** The same split on a bare `\n`, with every `\r` left in place: the reference that
      SplitLines is compared with once lines are trimmed. */
  function SplitOnLineFeed(s: string): (lines: seq<string>)
    ensures |lines| >= 1
    decreases |s|
  {
    var i := LineFeedIndex(s);
    if i == |s| then [s] else [s[..i]] + SplitOnLineFeed(s[i + 1..])
  }

  /** implode("\n", lines): the inverse of the split. */
  function JoinLines(lines: seq<string>): string {
    if |lines| == 0 then "" else if |lines| == 1 then lines[0]
    else lines[0] + "\n" + JoinLines(lines[1..])
  }

  lemma LineFeedIndexAfter(x: string, rest: string)
    requires '\n' !in x
    ensures LineFeedIndex(x + "\n" + rest) == |x|
  {
    var s := x + "\n" + rest;
    assert s[|x|] == '\n';
    assert forall k :: 0 <= k < |x| ==> s[k] == x[k] && x[k] in x;
  }

  lemma LineFeedIndexNone(x: string)
    requires '\n' !in x
    ensures LineFeedIndex(x) == |x|
  {
    assert forall k :: 0 <= k < |x| ==> x[k] in x;
  }

  /** The split of a line, a line feed and more text: the line, less a final `\r`, then
      the split of the rest. */
  lemma SplitLinesCons(x: string, rest: string)
    requires '\n' !in x
    ensures SplitLines(x + "\n" + rest) == [DropCarriageReturn(x)] + SplitLines(rest)
  {
    var s := x + "\n" + rest;
    LineFeedIndexAfter(x, rest);
    assert s[..|x|] == x;
    assert s[|x| + 1..] == rest;
  }

  /** Splitting joined lines gives them back, provided no line holds a line feed and no
      line but the last ends in `\r` (that `\r` would be read as part of the separator). */
  lemma {:induction false} SplitJoin(lines: seq<string>)
    requires |lines| >= 1
    requires forall k :: 0 <= k < |lines| ==> '\n' !in lines[k]
    requires forall k :: 0 <= k < |lines| - 1 ==> DropCarriageReturn(lines[k]) == lines[k]
    ensures SplitLines(JoinLines(lines)) == lines
    decreases |lines|
  {
    if |lines| == 1 {
      LineFeedIndexNone(lines[0]);
    } else {
      var tail := lines[1..];
      assert forall k :: 0 <= k < |tail| ==> tail[k] == lines[k + 1];
      SplitLinesCons(lines[0], JoinLines(tail));
      SplitJoin(tail);
      assert lines == [lines[0]] + tail;
    }
  }

  /** Joining the split pieces gives the text back when it holds no `\r`. */
  lemma {:induction false} JoinSplit(s: string)
    requires '\r' !in s
    ensures JoinLines(SplitLines(s)) == s
    decreases |s|
  {
    var i := LineFeedIndex(s);
    if i < |s| {
      var head, tail := s[..i], s[i + 1..];
      assert s == head + "\n" + tail;
      assert forall k :: 0 <= k < |head| ==> head[k] == s[k] && s[k] in s;
      assert forall k :: 0 <= k < |tail| ==> tail[k] == s[i + 1 + k] && s[i + 1 + k] in s;
      SplitLinesCons(head, tail);
      JoinSplit(tail);
      var lines := SplitLines(s);
      assert lines[0] == head && lines[1..] == SplitLines(tail);
    }
  }

  // ---------------------------------------------------------------------------
  // Filtering lines
  // ---------------------------------------------------------------------------

  /** A trimmed line survives unless it is blank or a `#` comment. */
  predicate IsKept(line: string) {
    line != [] && line[0] != '#'
  }

  /** What a parsed list holds: non-empty, trimmed, not a comment, a single line. */
  predicate IsEntry(e: string) {
    IsTrimmed(e) && IsKept(e) && '\n' !in e
  }

  /** The array_map/array_filter pipeline: trims every line and keeps the survivors, in
      order. Every result is trimmed and kept; single-line input gives single-line entries. */
  function CleanLines(lines: seq<string>): (entries: seq<string>)
    ensures |entries| <= |lines|
    ensures forall k :: 0 <= k < |entries| ==> IsTrimmed(entries[k]) && IsKept(entries[k])
    ensures (forall k :: 0 <= k < |lines| ==> '\n' !in lines[k]) ==>
              forall k :: 0 <= k < |entries| ==> '\n' !in entries[k]
  {
    if lines == [] then []
    else
      var line := Trim(lines[0]);
      TrimAddsNoLineFeed(lines[0]);
      (if IsKept(line) then [line] else []) + CleanLines(lines[1..])
  }

  lemma CleanLinesCons(line: string, rest: seq<string>)
    ensures CleanLines([line] + rest) ==
            (if IsKept(Trim(line)) then [Trim(line)] else []) + CleanLines(rest)
  {
    assert ([line] + rest)[1..] == rest;
  }

  /** A string survives the filter exactly when it is the trimmed form of some line and is
      neither blank nor a comment. */
  lemma {:induction false} CleanLinesMembers(lines: seq<string>, x: string)
    ensures x in CleanLines(lines) <==> exists k :: 0 <= k < |lines| && Trim(lines[k]) == x && IsKept(x)
    decreases |lines|
  {
    if lines != [] {
      var tail := lines[1..];
      CleanLinesMembers(tail, x);
      assert forall k :: 0 <= k < |tail| ==> tail[k] == lines[k + 1];
      if exists k :: 0 <= k < |lines| && Trim(lines[k]) == x && IsKept(x) {
        var k :| 0 <= k < |lines| && Trim(lines[k]) == x && IsKept(x);
        if k > 0 {
          assert Trim(tail[k - 1]) == x;
        }
      }
    }
  }

  /** Parsed entries are left as they are by the filter. */
  lemma {:induction false} CleanLinesKeepsEntries(entries: seq<string>)
    requires forall k :: 0 <= k < |entries| ==> IsEntry(entries[k])
    ensures CleanLines(entries) == entries
  {
    if entries != [] {
      TrimOfTrimmed(entries[0]);
      CleanLinesKeepsEntries(entries[1..]);
      assert entries == [entries[0]] + entries[1..];
    }
  }

  /** The body parser of fetchFromEndpoint. Every entry is non-empty, trimmed, a single
      line, and does not start with `#`. */
  function ParseBody(body: string): (entries: seq<string>)
    ensures forall k :: 0 <= k < |entries| ==> IsEntry(entries[k])
  {
    CleanLines(SplitLines(Trim(body)))
  }

  lemma TrimDropsCarriageReturn(piece: string)
    ensures Trim(DropCarriageReturn(piece)) == Trim(piece)
  {
    if |piece| > 0 && piece[|piece| - 1] == '\r' {
      var y := piece[..|piece| - 1];
      var t := Trim(y);
      var front, back := TrimSplits(y);
      var back' := back + ['\r'];
      assert AllTrimChars(back') by {
        assert forall i :: 0 <= i < |back| ==> back'[i] == back[i];
      }
      calc {
        piece;
        y + ['\r'];
        (front + t + back) + ['\r'];
        front + t + back';
      }
      TrimPadded(front, t, back');
    }
  }

  /** Splitting on `\r?\n` or on a bare `\n` makes no difference once lines are trimmed,
      since trim() strips the `\r` the bare split leaves behind. */
  lemma {:induction false} CleanSplitIgnoresCarriageReturn(s: string)
    ensures CleanLines(SplitLines(s)) == CleanLines(SplitOnLineFeed(s))
    decreases |s|
  {
    var i := LineFeedIndex(s);
    if i < |s| {
      var head, tail := s[..i], s[i + 1..];
      assert SplitLines(s) == [DropCarriageReturn(head)] + SplitLines(tail);
      assert SplitOnLineFeed(s) == [head] + SplitOnLineFeed(tail);
      CleanSplitIgnoresCarriageReturn(tail);
      TrimDropsCarriageReturn(head);
      CleanLinesCons(DropCarriageReturn(head), SplitLines(tail));
      CleanLinesCons(head, SplitOnLineFeed(tail));
    }
  }

  /** ParseBody against its reference: split on a bare `\n`, then trim and filter. */
  lemma ParseBodyOnLineFeeds(body: string)
    ensures ParseBody(body) == CleanLines(SplitOnLineFeed(Trim(body)))
  {
    CleanSplitIgnoresCarriageReturn(Trim(body));
  }

  /** The entries of a body are exactly the trimmed lines of its trimmed text, split on
      line feeds, that are neither blank nor comments. */
  lemma ParseBodyMembers(body: string, x: string)
    ensures var lines := SplitOnLineFeed(Trim(body));
            x in ParseBody(body) <==> exists k :: 0 <= k < |lines| && Trim(lines[k]) == x && IsKept(x)
  {
    ParseBodyOnLineFeeds(body);
    CleanLinesMembers(SplitOnLineFeed(Trim(body)), x);
  }

  lemma {:induction false} JoinLinesEnds(lines: seq<string>)
    requires |lines| >= 1
    requires forall k :: 0 <= k < |lines| ==> lines[k] != []
    ensures var s := JoinLines(lines);
            |s| > 0 && s[0] == lines[0][0] && s[|s| - 1] == lines[|lines| - 1][|lines[|lines| - 1]| - 1]
    decreases |lines|
  {
    if |lines| > 1 {
      JoinLinesEnds(lines[1..]);
    }
  }

  /** Round trip of the parser: joining entries with line feeds and parsing gives them back. */
  lemma ParseJoinRoundTrip(entries: seq<string>)
    requires forall k :: 0 <= k < |entries| ==> IsEntry(entries[k])
    ensures ParseBody(JoinLines(entries)) == entries
  {
    if entries == [] {
      assert SplitLines("") == [""];
    } else {
      var s := JoinLines(entries);
      JoinLinesEnds(entries);
      TrimOfTrimmed(s);
      SplitJoin(entries);
      CleanLinesKeepsEntries(entries);
    }
  }

  /** A body made of lines joined by line feeds, with no blank padding around it, parses
      to those lines trimmed and filtered. */
  lemma ParseJoined(lines: seq<string>)
    requires |lines| >= 1 && IsTrimmed(JoinLines(lines))
    requires forall k :: 0 <= k < |lines| ==> '\n' !in lines[k]
    requires forall k :: 0 <= k < |lines| - 1 ==> DropCarriageReturn(lines[k]) == lines[k]
    ensures ParseBody(JoinLines(lines)) == CleanLines(lines)
  {
    TrimOfTrimmed(JoinLines(lines));
    SplitJoin(lines);
  }
}
