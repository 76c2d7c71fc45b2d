/** The console player's input handling, one line at a time: the worker token,
    a coordinate line "a b", and a start cell. Reading standard input and
    printing prompts are left to the caller; a session is a list of lines. */
module Console {
  import opened Santorini
  import opened Placement

  /* ---------- characters ---------- */

  /** Rust's `char::is_whitespace`: the Unicode White_Space property, that is
      tab through carriage return, space, and the eleven code points beyond
      ASCII listed in OtherWhitespace. */
  predicate IsWhitespace(c: char) {
    if c <= ' ' then c == ' ' || '\t' <= c <= '\r'
    else if c < '\U{0085}' then false
    else OtherWhitespace(c)
  }

  predicate OtherWhitespace(c: char) {
    || c == '\U{0085}' || c == '\U{00A0}' || c == '\U{1680}'
    || ('\U{2000}' <= c <= '\U{200A}')
    || c == '\U{2028}' || c == '\U{2029}' || c == '\U{202F}' || c == '\U{205F}' || c == '\U{3000}'
  }

  predicate AllWhitespace(s: string) {
    forall k :: 0 <= k < |s| ==> IsWhitespace(s[k])
  }

  predicate NoWhitespace(s: string) {
    forall k :: 0 <= k < |s| ==> !IsWhitespace(s[k])
  }

  /** Lower-casing of one character, for the ASCII letters. */
  function LowerChar(c: char): (d: char)
    ensures 'a' <= d <= 'z' <==> ('a' <= c <= 'z' || 'A' <= c <= 'Z')
  {
    if 'A' <= c <= 'Z' then (c as int + 32) as char else c
  }

  function UpperChar(c: char): (d: char)
    ensures LowerChar(d) == LowerChar(c)
  {
    if 'a' <= c <= 'z' then (c as int - 32) as char else c
  }

  function Lower(s: string): (r: string)
    ensures |r| == |s| && forall k :: 0 <= k < |s| ==> r[k] == LowerChar(s[k])
  {
    seq(|s|, k requires 0 <= k < |s| => LowerChar(s[k]))
  }

  function Upper(s: string): (r: string)
    ensures |r| == |s| && forall k :: 0 <= k < |s| ==> r[k] == UpperChar(s[k])
  {
    seq(|s|, k requires 0 <= k < |s| => UpperChar(s[k]))
  }

  /* ---------- trim ---------- */

  /** The first position at or after i that holds no whitespace, or |s|. */
  function SkipForward(s: string, i: nat): (n: nat)
    requires i <= |s|
    ensures i <= n <= |s|
    ensures forall k :: i <= k < n ==> IsWhitespace(s[k])
    ensures n < |s| ==> !IsWhitespace(s[n])
    decreases |s| - i
  {
    if i < |s| && IsWhitespace(s[i]) then SkipForward(s, i + 1) else i
  }

  /** The end of s[lo..j] once its trailing whitespace is dropped. */
  function SkipBackward(s: string, lo: nat, j: nat): (n: nat)
    requires lo <= j <= |s|
    ensures lo <= n <= j
    ensures forall k :: n <= k < j ==> IsWhitespace(s[k])
    ensures n > lo ==> !IsWhitespace(s[n - 1])
  {
    if j > lo && IsWhitespace(s[j - 1]) then SkipBackward(s, lo, j - 1) else j
  }

  /** `str::trim`: s without its leading and trailing whitespace. */
  function Trim(s: string): (r: string)
    ensures exists i, j ::
      && 0 <= i <= j <= |s| && r == s[i..j]
      && (forall k :: 0 <= k < i ==> IsWhitespace(s[k]))
      && (forall k :: j <= k < |s| ==> IsWhitespace(s[k]))
    ensures r != [] ==> !IsWhitespace(r[0]) && !IsWhitespace(r[|r| - 1])
    ensures AllWhitespace(s) <==> r == []
  {
    var i := SkipForward(s, 0);
    var j := SkipBackward(s, i, |s|);
    s[i..j]
  }

  lemma {:induction false} SkipForwardIs(s: string, i: nat, n: nat)
    requires i <= n < |s|
    requires forall k :: i <= k < n ==> IsWhitespace(s[k])
    requires !IsWhitespace(s[n])
    ensures SkipForward(s, i) == n
    decreases n - i
  {
    if i < n {
      SkipForwardIs(s, i + 1, n);
    }
  }

  lemma {:induction false} SkipBackwardIs(s: string, lo: nat, j: nat, n: nat)
    requires lo < n <= j <= |s|
    requires forall k :: n <= k < j ==> IsWhitespace(s[k])
    requires !IsWhitespace(s[n - 1])
    ensures SkipBackward(s, lo, j) == n
    decreases j - n
  {
    if n < j {
      SkipBackwardIs(s, lo, j - 1, n);
    }
  }

  /** Padding a token that neither starts nor ends with whitespace leaves its trim unchanged. */
  lemma TrimPadded(pre: string, tok: string, post: string)
    requires AllWhitespace(pre) && AllWhitespace(post)
    requires tok != [] && !IsWhitespace(tok[0]) && !IsWhitespace(tok[|tok| - 1])
    ensures Trim(pre + tok + post) == tok
  {
    var s := pre + tok + post;
    var i, j := |pre|, |pre| + |tok|;
    assert s[i] == tok[0];
    SkipForwardIs(s, 0, i);
    assert s[j - 1] == tok[|tok| - 1];
    forall k | j <= k < |s| ensures IsWhitespace(s[k]) {
      assert s[k] == post[k - j];
    }
    SkipBackwardIs(s, i, |s|, j);
    assert s[i..j] == tok;
  }

  /** Lower-casing neither makes nor unmakes whitespace. */
  lemma LowerCharWhitespace(c: char)
    ensures IsWhitespace(LowerChar(c)) <==> IsWhitespace(c)
  {
  }

  lemma {:induction false} SkipForwardLower(s: string, i: nat)
    requires i <= |s|
    ensures SkipForward(Lower(s), i) == SkipForward(s, i)
    decreases |s| - i
  {
    if i < |s| {
      LowerCharWhitespace(s[i]);
      SkipForwardLower(s, i + 1);
    }
  }

  lemma {:induction false} SkipBackwardLower(s: string, lo: nat, j: nat)
    requires lo <= j <= |s|
    ensures SkipBackward(Lower(s), lo, j) == SkipBackward(s, lo, j)
  {
    if j > lo {
      LowerCharWhitespace(s[j - 1]);
      SkipBackwardLower(s, lo, j - 1);
    }
  }

  lemma LowerSlice(s: string, i: nat, j: nat)
    requires i <= j <= |s|
    ensures Lower(s)[i..j] == Lower(s[i..j])
  {
  }

  /** Trimming and lower-casing commute. */
  lemma TrimLower(s: string)
    ensures Trim(Lower(s)) == Lower(Trim(s))
  {
    var i := SkipForward(s, 0);
    SkipForwardLower(s, 0);
    var j := SkipBackward(s, i, |s|);
    SkipBackwardLower(s, i, |s|);
    LowerSlice(s, i, j);
  }

  /* ---------- worker token ---------- */

  /** The worker prompt: the trimmed, lower-cased line must be o, one or 1 for
      worker One, t, two or 2 for worker Two; anything else is refused. */
  function ParseWorker(line: string): (r: Option<Worker>)
    ensures r == Some(One) <==> Lower(Trim(line)) in {"o", "one", "1"}
    ensures r == Some(Two) <==> Lower(Trim(line)) in {"t", "two", "2"}
    ensures AllWhitespace(line) ==> r == None
  {
    var token := Lower(Trim(line));
    if token == "o" || token == "one" || token == "1" then Some(One)
    else if token == "t" || token == "two" || token == "2" then Some(Two)
    else None
  }

  /** The letter the board display uses for a worker. */
  function WorkerName(w: Worker): string {
    if w == One then "O" else "T"
  }

  /** A worker typed as the board shows it, padded with any whitespace, is read back. */
  lemma WorkerNameRoundTrip(w: Worker, pre: string, post: string)
    requires AllWhitespace(pre) && AllWhitespace(post)
    ensures ParseWorker(pre + WorkerName(w) + post) == Some(w)
  {
    TrimPadded(pre, WorkerName(w), post);
    assert Lower(WorkerName(w)) == (if w == One then "o" else "t");
  }

  /** The worker prompt ignores letter case. */
  lemma ParseWorkerCaseBlind(a: string, b: string)
    requires Lower(a) == Lower(b)
    ensures ParseWorker(a) == ParseWorker(b)
  {
    TrimLower(a);
    TrimLower(b);
  }

  /** Upper-casing a line does not change the worker it names. */
  lemma ParseWorkerUpper(line: string)
    ensures ParseWorker(Upper(line)) == ParseWorker(line)
  {
    assert Lower(Upper(line)) == Lower(line);
    ParseWorkerCaseBlind(Upper(line), line);
  }

  /* ---------- numbers ---------- */

  predicate IsDigit(c: char) {
    '0' <= c <= '9'
  }

  /** The value of a run of decimal digits. */
  function DigitsValue(s: string): nat
    requires forall k :: 0 <= k < |s| ==> IsDigit(s[k])
  {
    if s == [] then 0
    else
      assert IsDigit(s[|s| - 1]);
      DigitsValue(s[..|s| - 1]) * 10 + (s[|s| - 1] as int - '0' as int)
  }

  /** `str::parse::<u8>`: an optional '+', then one or more decimal digits with
      value at most 255; a '-', any other character, an empty run or a larger
      value is an error. */
  function ParseU8(tok: string): (r: Option<Byte>)
    ensures r.Some? ==> tok != [] && tok != "+"
    ensures r.Some? && tok[0] != '+' ==> forall k :: 0 <= k < |tok| ==> IsDigit(tok[k])
  {
    var digits := if tok != [] && tok[0] == '+' then tok[1..] else tok;
    if digits == [] || exists k :: 0 <= k < |digits| && !IsDigit(digits[k]) then None
    else
      var v := DigitsValue(digits);
      if v <= 255 then Some(v) else None
  }

  function DigitChar(d: nat): (c: char)
    requires d < 10
    ensures IsDigit(c) && c as int - '0' as int == d
  {
    ('0' as int + d) as char
  }

  /** The decimal rendering of n, without leading zeros. */
  function Decimal(n: nat): (s: string)
    ensures s != [] && forall k :: 0 <= k < |s| ==> IsDigit(s[k])
    ensures DigitsValue(s) == n
  {
    if n < 10 then [DigitChar(n)]
    else
      var s := Decimal(n / 10) + [DigitChar(n % 10)];
      assert s[..|s| - 1] == Decimal(n / 10);
      s
  }

  /** Every byte, written in decimal with or without a '+', reads back. */
  lemma ParseU8RoundTrip(n: Byte)
    ensures ParseU8(Decimal(n)) == Some(n)
    ensures ParseU8("+" + Decimal(n)) == Some(n)
  {
    assert ("+" + Decimal(n))[1..] == Decimal(n);
  }

  /** Signs other than '+', and values past 255, are refused. */
  lemma ParseU8Rejects()
    ensures ParseU8("-1") == None && ParseU8("-0") == None
    ensures ParseU8("256") == None
    ensures ParseU8("") == None && ParseU8("+") == None
  {
    assert !IsDigit('-');
    assert DigitsValue("256") == 256 by {
      assert "256"[..2] == "25" && "25"[..1] == "2" && "2"[..0] == "";
    }
  }

  /* ---------- tokens ---------- */

  /** The length of the run of non-whitespace characters s starts with. */
  function WordLength(s: string): (n: nat)
    ensures n <= |s| && NoWhitespace(s[..n])
    ensures n < |s| ==> IsWhitespace(s[n])
  {
    if s != [] && !IsWhitespace(s[0]) then
      var n := 1 + WordLength(s[1..]);
      assert forall k :: 1 <= k < n ==> s[..n][k] == s[1..][..n - 1][k - 1];
      n
    else 0
  }

  /** `str::split_whitespace`: the maximal runs of non-whitespace characters, in order. */
  function Tokens(s: string): (ts: seq<string>)
    ensures forall k :: 0 <= k < |ts| ==> ts[k] != [] && NoWhitespace(ts[k])
    ensures AllWhitespace(s) <==> ts == []
    decreases |s|
  {
    if s == [] then []
    else if IsWhitespace(s[0]) then
      var ts := Tokens(s[1..]);
      assert AllWhitespace(s[1..]) ==> AllWhitespace(s);
      assert AllWhitespace(s) ==> AllWhitespace(s[1..]) by {
        if AllWhitespace(s) {
          forall k | 0 <= k < |s[1..]| ensures IsWhitespace(s[1..][k]) {
            assert s[1..][k] == s[k + 1];
          }
        }
      }
      ts
    else
      var n := WordLength(s);
      [s[..n]] + Tokens(s[n..])
  }

  /** A word followed by whitespace, or by nothing, is the first token. */
  lemma TokensWord(word: string, rest: string)
    requires word != [] && NoWhitespace(word)
    requires rest == [] || IsWhitespace(rest[0])
    ensures Tokens(word + rest) == [word] + Tokens(rest)
  {
    var s := word + rest;
    WordLengthOf(word, rest);
    assert s[..|word|] == word && s[|word|..] == rest;
  }

  lemma {:induction false} WordLengthOf(word: string, rest: string)
    requires NoWhitespace(word)
    requires rest == [] || IsWhitespace(rest[0])
    ensures WordLength(word + rest) == |word|
  {
    if word != [] {
      assert (word + rest)[1..] == word[1..] + rest;
      WordLengthOf(word[1..], rest);
    } else {
      assert word + rest == rest;
    }
  }

  lemma {:induction false} TokensSkip(ws: string, rest: string)
    requires AllWhitespace(ws)
    ensures Tokens(ws + rest) == Tokens(rest)
  {
    if ws != [] {
      assert (ws + rest)[0] == ws[0] && IsWhitespace(ws[0]);
      assert Tokens(ws + rest) == Tokens((ws + rest)[1..]);
      assert (ws + rest)[1..] == ws[1..] + rest;
      TokensSkip(ws[1..], rest);
    } else {
      assert ws + rest == rest;
    }
  }

  /* ---------- coordinates ---------- */

  /** A coordinate line: exactly two tokens that both read as bytes. The second
      token gives x and the first gives y, and the pair is returned as (x, y).
      No range check is made here. */
  function ParseCoordinates(line: string): (r: Option<Coord>)
    ensures r.Some? <==>
      && |Tokens(line)| == 2 && ParseU8(Tokens(line)[1]).Some? && ParseU8(Tokens(line)[0]).Some?
    ensures r.Some? ==>
      r.value == (ParseU8(Tokens(line)[1]).value, ParseU8(Tokens(line)[0]).value)
  {
    var ts := Tokens(line);
    if |ts| != 2 then None
    else match (ParseU8(ts[1]), ParseU8(ts[0]))
      case (Some(x), Some(y)) => Some((x, y))
      case _ => None
  }

  /** A word surrounded by whitespace is the only token. */
  lemma OneToken(w: string, pre: string, post: string)
    requires w != [] && NoWhitespace(w)
    requires AllWhitespace(pre) && AllWhitespace(post)
    ensures Tokens(pre + (w + post)) == [w]
  {
    TokensWord(w, post);
    assert Tokens(post) == [];
    TokensSkip(pre, w + post);
  }

  /** Two words separated and surrounded by whitespace are the line's two tokens. */
  lemma TwoTokens(w1: string, w2: string, pre: string, mid: string, post: string)
    requires w1 != [] && NoWhitespace(w1) && w2 != [] && NoWhitespace(w2)
    requires AllWhitespace(pre) && AllWhitespace(mid) && mid != [] && AllWhitespace(post)
    ensures Tokens(pre + w1 + mid + w2 + post) == [w1, w2]
  {
    var mt := mid + (w2 + post);
    OneToken(w2, mid, post);
    assert mt[0] == mid[0];
    var t1 := Tokens(w1 + mt);
    TokensWord(w1, mt);
    assert t1 == [w1] + [w2];
    Associate(pre, w1, mid, w2, post);
    TokensSkip(pre, w1 + mt);
  }

  lemma Associate(a: string, b: string, c: string, d: string, e: string)
    ensures a + b + c + d + e == a + (b + (c + (d + e)))
  {
  }

  /** The line "a b", written with any whitespace around and between, reads
      back as (b, a). */
  lemma CoordinatesRoundTrip(a: Byte, b: Byte, pre: string, mid: string, post: string)
    requires AllWhitespace(pre) && AllWhitespace(mid) && mid != [] && AllWhitespace(post)
    ensures ParseCoordinates(pre + Decimal(a) + mid + Decimal(b) + post) == Some((b, a))
  {
    var da, db := Decimal(a), Decimal(b);
    assert NoWhitespace(da) && NoWhitespace(db);
    TwoTokens(da, db, pre, mid, post);
    ParseU8RoundTrip(a);
    ParseU8RoundTrip(b);
  }

  /** Moves and builds are read without a range check: an off-board line is accepted. */
  lemma CoordinatesUnchecked()
    ensures ParseCoordinates(Decimal(9) + " " + Decimal(200)) == Some((200, 9))
    ensures !OnBoard((200, 9))
  {
    CoordinatesRoundTrip(9, 200, "", " ", "");
    assert "" + Decimal(9) + " " + Decimal(200) + "" == Decimal(9) + " " + Decimal(200);
  }

  /* ---------- start cells ---------- */

  /** A start-cell line: a coordinate line whose cell is on the board and used
      by neither worker of any committed placement. */
  function ParseStartCell(line: string, placed: seq<WorkerPair>): (r: Option<Coord>)
    ensures r.Some? <==>
      ParseCoordinates(line).Some? && OnBoard(ParseCoordinates(line).value) && Free(placed, ParseCoordinates(line).value)
    ensures r.Some? ==> r == ParseCoordinates(line)
  {
    match ParseCoordinates(line)
    case None => None
    case Some(c) =>
      if c.0 > 4 || c.1 > 4 || exists k :: 0 <= k < |placed| && (placed[k].0 == c || placed[k].1 == c) then None
      else Some(c)
  }

  /** The two start-cell lines: each checked against the committed placements
      only, never against each other. */
  function ParseStartPair(first: string, second: string, placed: seq<WorkerPair>): (r: Option<WorkerPair>)
    ensures r.Some? ==> OnBoard(r.value.0) && OnBoard(r.value.1)
    ensures r.Some? ==> Free(placed, r.value.0) && Free(placed, r.value.1)
    ensures r.Some? <==> ParseStartCell(first, placed).Some? && ParseStartCell(second, placed).Some?
  {
    match (ParseStartCell(first, placed), ParseStartCell(second, placed))
    case (Some(w1), Some(w2)) => Some((w1, w2))
    case _ => None
  }

  /** Both workers may be placed on the same cell: "2 2" twice is accepted. */
  lemma SameCellTwice()
    ensures ParseStartPair("2 2", "2 2", []) == Some(((2, 2), (2, 2)))
  {
    CoordinateLine((2, 2));
    assert Decimal(2) + " " + Decimal(2) == "2 2";
    SameLineTwice("2 2", []);
  }

  /** Whatever line is accepted for the first worker is accepted again for the second. */
  lemma SameLineTwice(line: string, placed: seq<WorkerPair>)
    requires ParseStartCell(line, placed).Some?
    ensures ParseStartPair(line, line, placed) == Some((ParseStartCell(line, placed).value, ParseStartCell(line, placed).value))
  {
  }

  /** A cell already used by a committed pair is refused. */
  lemma UsedCellRefused(line: string, placed: seq<WorkerPair>, k: nat)
    requires k < |placed| && ParseCoordinates(line).Some?
    requires ParseCoordinates(line).value == placed[k].0 || ParseCoordinates(line).value == placed[k].1
    ensures ParseStartCell(line, placed) == None
  {
  }

  /* ---------- the prompt loops ---------- */

  /** Lines n-3, n-2 and n-1 are a worker line, a move line and a build line
      that read as action a. */
  predicate EndsWithAction(lines: seq<string>, a: Action, n: nat) {
    && 3 <= n <= |lines|
    && ParseWorker(lines[n - 3]) == Some(a.worker)
    && ParseCoordinates(lines[n - 2]) == Some(a.movement)
    && ParseCoordinates(lines[n - 1]) == Some(a.build)
  }

  lemma EndsWithActionShift(lines: seq<string>, a: Action, n: nat, d: nat)
    requires d <= |lines| && EndsWithAction(lines[d..], a, n)
    ensures EndsWithAction(lines, a, d + n)
  {
    assert lines[d..][n - 3] == lines[d + n - 3];
    assert lines[d..][n - 2] == lines[d + n - 2];
    assert lines[d..][n - 1] == lines[d + n - 1];
  }

  /** `get_action`'s loop over the lines typed: a worker line, then a move line,
      then a build line; a refused line sends the player back to the worker
      prompt. The result is the action and the number of lines read, or None
      when the lines run out first (the program would keep prompting). */
  function ReadAction(lines: seq<string>): (r: Option<(Action, nat)>)
    ensures r.Some? ==> EndsWithAction(lines, r.value.0, r.value.1)
    decreases |lines|
  {
    if lines == [] then None
    else
      var w := ParseWorker(lines[0]);
      if w.None? then Resume(lines, 1, ReadAction(lines[1..]))
      else if |lines| < 2 then None
      else
        var m := ParseCoordinates(lines[1]);
        if m.None? then Resume(lines, 2, ReadAction(lines[2..]))
        else if |lines| < 3 then None
        else
          var b := ParseCoordinates(lines[2]);
          if b.None? then Resume(lines, 3, ReadAction(lines[3..]))
          else Some((Action(w.value, m.value, b.value), 3))
  }

  /** The result of reading lines[d..], counted from the start of lines. */
  function Resume(lines: seq<string>, d: nat, rest: Option<(Action, nat)>): (r: Option<(Action, nat)>)
    requires d <= |lines|
    requires rest.Some? ==> EndsWithAction(lines[d..], rest.value.0, rest.value.1)
    ensures r.Some? ==> EndsWithAction(lines, r.value.0, r.value.1)
    ensures r.Some? <==> rest.Some?
  {
    match rest
    case None => None
    case Some(found) =>
      EndsWithActionShift(lines, found.0, found.1, d);
      Some((found.0, d + found.1))
  }

  /** Three acceptable lines in a row give their action at once. */
  lemma ReadActionAccepts(lines: seq<string>)
    requires |lines| >= 3
    requires ParseWorker(lines[0]).Some? && ParseCoordinates(lines[1]).Some? && ParseCoordinates(lines[2]).Some?
    ensures ReadAction(lines)
         == Some((Action(ParseWorker(lines[0]).value, ParseCoordinates(lines[1]).value, ParseCoordinates(lines[2]).value), 3))
  {
  }

  /** A refused worker line is dropped and reading starts again on the next line. */
  lemma ReadActionWorkerRefused(lines: seq<string>)
    requires |lines| >= 1 && ParseWorker(lines[0]).None?
    ensures ReadAction(lines).Some? <==> ReadAction(lines[1..]).Some?
    ensures ReadAction(lines).Some? ==>
      ReadAction(lines) == Some((ReadAction(lines[1..]).value.0, ReadAction(lines[1..]).value.1 + 1))
  {
    assert ReadAction(lines) == Resume(lines, 1, ReadAction(lines[1..]));
  }

  /** A refused move line sends the player back to the worker prompt: the worker
      line before it is dropped too, and reading starts again after the move line. */
  lemma ReadActionMoveRefused(lines: seq<string>)
    requires |lines| >= 2 && ParseWorker(lines[0]).Some? && ParseCoordinates(lines[1]).None?
    ensures ReadAction(lines).Some? <==> ReadAction(lines[2..]).Some?
    ensures ReadAction(lines).Some? ==>
      ReadAction(lines) == Some((ReadAction(lines[2..]).value.0, ReadAction(lines[2..]).value.1 + 2))
  {
    assert ReadAction(lines) == Resume(lines, 2, ReadAction(lines[2..]));
  }

  /** A refused build line drops the whole attempt: reading starts again after
      the build line, at the worker prompt. */
  lemma ReadActionBuildRefused(lines: seq<string>)
    requires |lines| >= 3 && ParseWorker(lines[0]).Some? && ParseCoordinates(lines[1]).Some?
    requires ParseCoordinates(lines[2]).None?
    ensures ReadAction(lines).Some? <==> ReadAction(lines[3..]).Some?
    ensures ReadAction(lines).Some? ==>
      ReadAction(lines) == Some((ReadAction(lines[3..]).value.0, ReadAction(lines[3..]).value.1 + 3))
  {
    assert ReadAction(lines) == Resume(lines, 3, ReadAction(lines[3..]));
  }

  /** The line "y x" reads back as the cell (x, y). */
  lemma CoordinateLine(c: Coord)
    ensures ParseCoordinates(Decimal(c.1) + " " + Decimal(c.0)) == Some(c)
  {
    var d1, d0 := Decimal(c.1), Decimal(c.0);
    CoordinatesRoundTrip(c.1, c.0, "", " ", "");
    assert "" + d1 == d1;
    assert d1 + " " + d0 + "" == d1 + " " + d0;
  }

  /** The worker letter the board shows reads back as that worker. */
  lemma WorkerLine(w: Worker)
    ensures ParseWorker(WorkerName(w)) == Some(w)
  {
    WorkerNameRoundTrip(w, "", "");
    assert "" + WorkerName(w) + "" == WorkerName(w);
  }

  /** Typing a worker as the board shows it and then two coordinate lines "y x"
      gives that action after three lines. */
  lemma ReadActionFirstTry(lines: seq<string>, w: Worker, m: Coord, b: Coord)
    requires |lines| >= 3 && lines[0] == WorkerName(w)
    requires lines[1] == Decimal(m.1) + " " + Decimal(m.0) && lines[2] == Decimal(b.1) + " " + Decimal(b.0)
    ensures ReadAction(lines) == Some((Action(w, m, b), 3))
  {
    WorkerLine(w);
    CoordinateLine(m);
    CoordinateLine(b);
    ReadActionAccepts(lines);
  }

  /** Lines n-2 and n-1 are a first-worker and a second-worker line that read as pair p. */
  predicate EndsWithStart(lines: seq<string>, placed: seq<WorkerPair>, p: WorkerPair, n: nat) {
    2 <= n <= |lines| && ParseStartPair(lines[n - 2], lines[n - 1], placed) == Some(p)
  }

  lemma EndsWithStartShift(lines: seq<string>, placed: seq<WorkerPair>, p: WorkerPair, n: nat, d: nat)
    requires d <= |lines| && EndsWithStart(lines[d..], placed, p, n)
    ensures EndsWithStart(lines, placed, p, d + n)
  {
    assert lines[d..][n - 2] == lines[d + n - 2];
    assert lines[d..][n - 1] == lines[d + n - 1];
  }

  /** `get_starting_position`'s loop: a first-worker line and a second-worker
      line; a refused line of either sends the player back to the first prompt.
      The result is the pair and the number of lines read, or None when the
      lines run out first. */
  function ReadStart(lines: seq<string>, placed: seq<WorkerPair>): (r: Option<(WorkerPair, nat)>)
    ensures r.Some? ==> EndsWithStart(lines, placed, r.value.0, r.value.1)
    decreases |lines|
  {
    if |lines| < 2 then None
    else
      var w1 := ParseStartCell(lines[0], placed);
      if w1.None? then ResumeStart(lines, placed, 1, ReadStart(lines[1..], placed))
      else
        var w2 := ParseStartCell(lines[1], placed);
        if w2.None? then ResumeStart(lines, placed, 2, ReadStart(lines[2..], placed))
        else
          ParseStartPairSome(lines[0], lines[1], placed);
          Some(((w1.value, w2.value), 2))
  }

  lemma ParseStartPairSome(first: string, second: string, placed: seq<WorkerPair>)
    requires ParseStartCell(first, placed).Some? && ParseStartCell(second, placed).Some?
    ensures ParseStartPair(first, second, placed)
         == Some((ParseStartCell(first, placed).value, ParseStartCell(second, placed).value))
  {
  }

  /** The result of reading lines[d..], counted from the start of lines. */
  function ResumeStart(lines: seq<string>, placed: seq<WorkerPair>, d: nat, rest: Option<(WorkerPair, nat)>): (r: Option<(WorkerPair, nat)>)
    requires d <= |lines|
    requires rest.Some? ==> EndsWithStart(lines[d..], placed, rest.value.0, rest.value.1)
    ensures r.Some? ==> EndsWithStart(lines, placed, r.value.0, r.value.1)
    ensures r.Some? <==> rest.Some?
  {
    match rest
    case None => None
    case Some(found) =>
      EndsWithStartShift(lines, placed, found.0, found.1, d);
      Some((found.0, d + found.1))
  }

  /** A refused first line is skipped and the reading restarts on the next one. */
  lemma ReadStartRestarts(lines: seq<string>, placed: seq<WorkerPair>)
    requires |lines| >= 2 && ParseStartCell(lines[0], placed).None?
    ensures ReadStart(lines, placed).Some? <==> ReadStart(lines[1..], placed).Some?
    ensures ReadStart(lines, placed).Some? ==>
      ReadStart(lines, placed) == Some((ReadStart(lines[1..], placed).value.0, ReadStart(lines[1..], placed).value.1 + 1))
  {
    assert ReadStart(lines, placed) == ResumeStart(lines, placed, 1, ReadStart(lines[1..], placed));
  }

  /** A refused second-worker line sends the player back to the first prompt:
      the accepted first line is dropped too, and reading starts again after
      the refused line. */
  lemma ReadStartSecondRefused(lines: seq<string>, placed: seq<WorkerPair>)
    requires |lines| >= 2 && ParseStartCell(lines[0], placed).Some? && ParseStartCell(lines[1], placed).None?
    ensures ReadStart(lines, placed).Some? <==> ReadStart(lines[2..], placed).Some?
    ensures ReadStart(lines, placed).Some? ==>
      ReadStart(lines, placed) == Some((ReadStart(lines[2..], placed).value.0, ReadStart(lines[2..], placed).value.1 + 2))
  {
    assert ReadStart(lines, placed) == ResumeStart(lines, placed, 2, ReadStart(lines[2..], placed));
  }
}
