/**
  The resumable parser of the status line that the Core sends to the Nginx module. Input arrives
  in pieces; positions are offsets into the whole stream.
 */
module StatusLineModel {
  import opened Basics

  const SPACE: Byte := 32
  const DOT: Byte := 46
  const CR: Byte := 13
  const LF: Byte := 10
  const HTTP: Bytes := [72, 84, 84, 80, 47]

  predicate IsDigit(b: Byte) {
    48 <= b <= 57
  }

  datatype State =
    | Start | H | HT | HTT | HTTP_
    | FirstMajorDigit | MajorDigit | FirstMinorDigit | MinorDigit
    | Status | SpaceAfterStatus | StatusText | AlmostDone

  /** The automaton state and the fields of the context that outlive one call. */
  datatype Parser = Parser(state: State, status: nat, count: nat, start: Option<int>, end: Option<int>)

  datatype Verdict = Again(p: Parser) | Ok(p: Parser, next: nat) | NoHeader

  const Fresh := Parser(Start, 0, 0, None, None)

  function Go(p: Parser, s: State): Verdict {
    Again(p.(state := s))
  }

  /** The end of the line at `pos`. */
  function Done(p: Parser, pos: nat): Verdict {
    Ok(p.(state := Start, end := if p.end.None? then Some(pos) else p.end), pos + 1)
  }

  /** One round of the loop. */
  function Advance(p: Parser, pos: nat, ch: Byte): Verdict {
    match p.state
    case Start => if ch == HTTP[0] then Go(p, H) else NoHeader
    case H => if ch == HTTP[1] then Go(p, HT) else NoHeader
    case HT => if ch == HTTP[2] then Go(p, HTT) else NoHeader
    case HTT => if ch == HTTP[3] then Go(p, HTTP_) else NoHeader
    case HTTP_ => if ch == HTTP[4] then Go(p, FirstMajorDigit) else NoHeader
    case FirstMajorDigit => if 49 <= ch <= 57 then Go(p, MajorDigit) else NoHeader
    case MajorDigit =>
      if ch == DOT then Go(p, FirstMinorDigit) else if IsDigit(ch) then Again(p) else NoHeader
    case FirstMinorDigit => if IsDigit(ch) then Go(p, MinorDigit) else NoHeader
    case MinorDigit =>
      if ch == SPACE then Go(p, Status) else if IsDigit(ch) then Again(p) else NoHeader
    case Status =>
      if ch == SPACE then Again(p)
      else if !IsDigit(ch) then NoHeader
      else
        var p := p.(status := p.status * 10 + ch - 48, count := p.count + 1);
        if p.count == 3 then Again(p.(state := SpaceAfterStatus, start := Some(pos - 2))) else Again(p)
    case SpaceAfterStatus =>
      if ch == SPACE || ch == DOT then Go(p, StatusText)
      else if ch == CR then Go(p, AlmostDone)
      else if ch == LF then Done(p, pos)
      else NoHeader
    case StatusText =>
      if ch == CR then Go(p, AlmostDone) else if ch == LF then Done(p, pos) else Again(p)
    case AlmostDone =>
      if ch == LF then Done(p.(end := Some(pos - 1)), pos) else NoHeader
  }

  /** One call on the bytes `input` that start at offset `pos`. */
  function Feed(p: Parser, pos: nat, input: Bytes): Verdict
    decreases |input|
  {
    if input == [] then Again(p)
    else
      var v := Advance(p, pos, input[0]);
      if v.Again? then Feed(v.p, pos + 1, input[1..]) else v
  }

  /** The calls for successive reads, until one of them decides. */
  function FeedReads(p: Parser, pos: nat, pieces: seq<Bytes>): Verdict
    decreases |pieces|
  {
    if pieces == [] then Again(p)
    else
      var v := Feed(p, pos, pieces[0]);
      if v.Again? then FeedReads(v.p, pos + |pieces[0]|, pieces[1..]) else v
  }

  // ----- splitting

  lemma {:induction false} FeedAppend(p: Parser, pos: nat, a: Bytes, b: Bytes)
    ensures Feed(p, pos, a + b) ==
              var v := Feed(p, pos, a); if v.Again? then Feed(v.p, pos + |a|, b) else v
    decreases |a|
  {
    if a == [] {
      assert a + b == b;
    } else {
      assert (a + b)[0] == a[0] && (a + b)[1..] == a[1..] + b;
      var v := Advance(p, pos, a[0]);
      if v.Again? {
        FeedAppend(v.p, pos + 1, a[1..], b);
      }
    }
  }

  /** However the stream is cut into reads, the verdict, the status, its offsets and the number of
      bytes consumed are those of one call on the whole. */
  lemma {:induction false} SplitIndependent(p: Parser, pos: nat, pieces: seq<Bytes>)
    ensures FeedReads(p, pos, pieces) == Feed(p, pos, Concat(pieces))
    decreases |pieces|
  {
    if pieces != [] {
      FeedAppend(p, pos, pieces[0], Concat(pieces[1..]));
      var v := Feed(p, pos, pieces[0]);
      if v.Again? {
        SplitIndependent(v.p, pos + |pieces[0]|, pieces[1..]);
      }
    }
  }

  // ----- the grammar

  /** A status line: version, status code with optional spaces between its digits, an optional text
      after a space or a dot, and a line end with or without a carriage return. */
  datatype Line = Line(major: Bytes, minor: Bytes, code: Bytes, text: Option<Text>, cr: bool)

  datatype Text = Text(separator: Byte, text: Bytes)

  predicate AllDigits(s: Bytes) {
    forall i | 0 <= i < |s| :: IsDigit(s[i])
  }

  predicate NoLineEnd(s: Bytes) {
    forall i | 0 <= i < |s| :: s[i] != CR && s[i] != LF
  }

  predicate IsCodeByte(b: Byte) {
    b == SPACE || IsDigit(b)
  }

  function Digits(code: Bytes): nat {
    if code == [] then 0 else (if code[0] == SPACE then 0 else 1) + Digits(code[1..])
  }

  /** The number that the digits of `code` add to `status`. */
  function Shift(status: int, code: Bytes): int
    decreases |code|
  {
    if code == [] then status
    else Shift(if code[0] == SPACE then status else status * 10 + code[0] - 48, code[1..])
  }

  /** Three digits, the last byte being the third. */
  predicate IsCode(code: Bytes) {
    && |code| > 0 && (forall i | 0 <= i < |code| :: IsCodeByte(code[i]))
    && Digits(code) == 3 && code[|code| - 1] != SPACE
  }

  predicate WellFormed(l: Line) {
    && |l.major| > 0 && AllDigits(l.major) && l.major[0] != 48
    && |l.minor| > 0 && AllDigits(l.minor)
    && IsCode(l.code)
    && (l.text.Some? ==> l.text.value.separator in {SPACE, DOT} && NoLineEnd(l.text.value.text))
  }

  function RenderVersion(l: Line): Bytes {
    HTTP + (l.major + [DOT]) + (l.minor + [SPACE])
  }

  function RenderEnd(l: Line): Bytes {
    (if l.text.Some? then [l.text.value.separator] + l.text.value.text else []) + (if l.cr then [CR, LF] else [LF])
  }

  function Render(l: Line): Bytes {
    RenderVersion(l) + l.code + RenderEnd(l)
  }

  // ----- every status line is accepted

  lemma {:induction false} DigitsFeed(p: Parser, pos: nat, digits: Bytes)
    requires p.state in {MajorDigit, MinorDigit} && AllDigits(digits)
    ensures Feed(p, pos, digits) == Again(p)
    decreases |digits|
  {
    if digits != [] {
      DigitsFeed(p, pos + 1, digits[1..]);
    }
  }

  lemma {:induction false} TextFeeds(p: Parser, pos: nat, text: Bytes)
    requires p.state == StatusText && NoLineEnd(text)
    ensures Feed(p, pos, text) == Again(p)
    decreases |text|
  {
    if text != [] {
      TextFeeds(p, pos + 1, text[1..]);
    }
  }

  /** A suffix of a code, read when `p.count` digits are already there. */
  predicate IsCodeRest(p: Parser, code: Bytes) {
    && |code| > 0 && (forall i | 0 <= i < |code| :: IsCodeByte(code[i]))
    && p.count + Digits(code) == 3 && code[|code| - 1] != SPACE
  }

  lemma {:induction false} CodeFeeds(p: Parser, pos: nat, code: Bytes)
    requires p.state == Status && p.count < 3 && IsCodeRest(p, code)
    requires 0 <= Shift(p.status, code)
    ensures Feed(p, pos, code)
         == Again(Parser(SpaceAfterStatus, Shift(p.status, code), 3, Some(pos + |code| - 3), p.end))
    decreases |code|
  {
    var v := Advance(p, pos, code[0]);
    if v.p.state == Status {
      assert |code| > 1;
      assert code[1..][|code| - 2] == code[|code| - 1];
      CodeFeeds(v.p, pos + 1, code[1..]);
    } else {
      assert |code| > 1 ==> code[1..][|code| - 2] == code[|code| - 1];
      NoDigitsLeft(code[1..]);
      assert code[1..] == [];
    }
  }

  /** Nothing follows the third digit. */
  lemma {:induction false} NoDigitsLeft(code: Bytes)
    requires (forall i | 0 <= i < |code| :: IsCodeByte(code[i])) && Digits(code) == 0
    ensures forall i | 0 <= i < |code| :: code[i] == SPACE
  {
    if code != [] {
      NoDigitsLeft(code[1..]);
      assert forall i | 0 < i < |code| :: code[i] == code[1..][i - 1];
    }
  }

  lemma EndFeeds(p: Parser, pos: nat, l: Line)
    requires p.state == SpaceAfterStatus && p.end.None? && WellFormed(l)
    ensures Feed(p, pos, RenderEnd(l))
         == Ok(p.(state := Start, end := Some(pos + |RenderEnd(l)| - if l.cr then 2 else 1)), pos + |RenderEnd(l)|)
  {
    var nl := if l.cr then [CR, LF] else [LF];
    if l.text.Some? {
      var t := l.text.value;
      var q := p.(state := StatusText);
      FeedAppend(p, pos, [t.separator] + t.text, nl);
      FeedAppend(p, pos, [t.separator], t.text);
      TextFeeds(q, pos + 1, t.text);
      EndOfLine(q, pos + 1 + |t.text|, l.cr);
    } else {
      assert RenderEnd(l) == nl;
      EndOfLine(p, pos, l.cr);
    }
  }

  lemma EndOfLine(p: Parser, pos: nat, cr: bool)
    requires p.state in {SpaceAfterStatus, StatusText} && p.end.None?
    ensures Feed(p, pos, if cr then [CR, LF] else [LF])
         == Ok(p.(state := Start, end := Some(pos)), pos + if cr then 2 else 1)
  {
  }

  lemma PrefixFeeds()
    ensures Feed(Fresh, 0, HTTP) == Again(Fresh.(state := FirstMajorDigit))
  {
  }

  lemma NumberFeeds(p: Parser, pos: nat, digits: Bytes, stop: Byte)
    requires p.state in {FirstMajorDigit, FirstMinorDigit} && |digits| > 0 && AllDigits(digits)
    requires p.state == FirstMajorDigit ==> digits[0] != 48 && stop == DOT
    requires p.state == FirstMinorDigit ==> stop == SPACE
    ensures Feed(p, pos, digits + [stop])
         == Again(p.(state := if p.state == FirstMajorDigit then FirstMinorDigit else Status))
  {
    var q := p.(state := if p.state == FirstMajorDigit then MajorDigit else MinorDigit);
    var s := digits + [stop];
    assert s[0] == digits[0] && s[1..] == digits[1..] + [stop];
    DigitsFeed(q, pos + 1, digits[1..]);
    FeedAppend(q, pos + 1, digits[1..], [stop]);
  }

  lemma VersionFeeds(l: Line)
    requires WellFormed(l)
    ensures Feed(Fresh, 0, RenderVersion(l)) == Again(Fresh.(state := Status))
  {
    var a, b := l.major + [DOT], l.minor + [SPACE];
    assert HTTP + a + b == HTTP + (a + b);
    PrefixFeeds();
    FeedAppend(Fresh, 0, HTTP, a + b);
    var p := Fresh.(state := FirstMajorDigit);
    FeedAppend(p, 5, a, b);
    NumberFeeds(p, 5, l.major, DOT);
    NumberFeeds(Fresh.(state := FirstMinorDigit), 5 + |a|, l.minor, SPACE);
  }

  lemma {:induction false} ShiftBounds(status: int, code: Bytes)
    requires 0 <= status && forall i | 0 <= i < |code| :: IsCodeByte(code[i])
    requires Digits(code) <= 3
    ensures 0 <= Shift(status, code)
    ensures Digits(code) == 0 ==> Shift(status, code) == status
    ensures Digits(code) == 1 ==> Shift(status, code) < (status + 1) * 10
    ensures Digits(code) == 2 ==> Shift(status, code) < (status + 1) * 100
    ensures Digits(code) == 3 ==> Shift(status, code) < (status + 1) * 1000
    decreases |code|
  {
    if code != [] {
        ShiftBounds(if code[0] == SPACE then status else status * 10 + code[0] - 48, code[1..]);
    }
  }

  /** Every status line is accepted, whatever follows it: the whole line is consumed, the status is
      the number its digits spell, and the recorded end is that of the text. */
  lemma AcceptsStatusLine(l: Line, rest: Bytes)
    requires WellFormed(l)
    ensures 0 <= Shift(0, l.code) <= 999
    ensures Feed(Fresh, 0, Render(l) + rest)
         == Ok(Parser(Start, Shift(0, l.code), 3, Some(|RenderVersion(l) + l.code| - 3),
                      Some(|Render(l)| - if l.cr then 2 else 1)),
               |Render(l)|)
  {
    var v, e := RenderVersion(l), RenderEnd(l);
    ShiftBounds(0, l.code);
    VersionFeeds(l);
    hide Feed, RenderVersion, RenderEnd;
    assert Render(l) + rest == v + (l.code + (e + rest));
    FeedAppend(Fresh, 0, v, l.code + (e + rest));
    CodeAndEndFeed(l, |v|, rest);
  }

  /** The line from its status code on. */
  lemma CodeAndEndFeed(l: Line, pos: nat, rest: Bytes)
    requires WellFormed(l) && 0 <= Shift(0, l.code)
    ensures
      var e := RenderEnd(l);
      Feed(Fresh.(state := Status), pos, l.code + (e + rest))
        == Ok(Parser(Start, Shift(0, l.code), 3, Some(pos + |l.code| - 3),
                     Some(pos + |l.code| + |e| - if l.cr then 2 else 1)),
              pos + |l.code| + |e|)
  {
    hide Feed, RenderEnd, Shift, Digits;
    var p, e := Fresh.(state := Status), RenderEnd(l);
    CodeFeeds(p, pos, l.code);
    FeedAppend(p, pos, l.code, e + rest);
    var q := Feed(p, pos, l.code).p;
    EndFeeds(q, pos + |l.code|, l);
    FeedAppend(q, pos + |l.code|, e, rest);
  }

  // ----- nothing else is

  lemma {:induction false} TextIsLine(p: Parser, pos: nat, input: Bytes) returns (text: Bytes, cr: bool)
    requires p.state == StatusText && Feed(p, pos, input).Ok?
    ensures NoLineEnd(text) && text + (if cr then [CR, LF] else [LF]) <= input
    decreases |input|
  {
    var v := Advance(p, pos, input[0]);
    if input[0] == LF {
      text, cr := [], false;
    } else if input[0] == CR {
      text, cr := [], true;
    } else {
      text, cr := TextIsLine(p, pos + 1, input[1..]);
      text := [input[0]] + text;
    }
  }

  lemma EndIsLine(p: Parser, pos: nat, input: Bytes) returns (text: Option<Text>, cr: bool)
    requires p.state == SpaceAfterStatus && Feed(p, pos, input).Ok?
    ensures text.Some? ==> text.value.separator in {SPACE, DOT} && NoLineEnd(text.value.text)
    ensures
      (if text.Some? then [text.value.separator] + text.value.text else []) + (if cr then [CR, LF] else [LF]) <= input
  {
    if input[0] in {SPACE, DOT} {
      var t;
      t, cr := TextIsLine(p.(state := StatusText), pos + 1, input[1..]);
      text := Some(Text(input[0], t));
      assert [input[0]] + t + (if cr then [CR, LF] else [LF]) == [input[0]] + (t + (if cr then [CR, LF] else [LF]));
    } else {
      text, cr := None, input[0] == CR;
    }
  }

  lemma {:induction false} CodeIsLine(p: Parser, pos: nat, input: Bytes) returns (code: Bytes)
    requires p.state == Status && p.count < 3 && Feed(p, pos, input).Ok?
    ensures IsCodeRest(p, code) && code <= input
    ensures 0 <= Shift(p.status, code)
    ensures Feed(Parser(SpaceAfterStatus, Shift(p.status, code), 3, Some(pos + |code| - 3), p.end),
                 pos + |code|, input[|code|..]).Ok?
    decreases |input|
  {
    var v := Advance(p, pos, input[0]);
    if v.p.state == Status {
      var rest := CodeIsLine(v.p, pos + 1, input[1..]);
      code := [input[0]] + rest;
      assert code[1..] == rest && input[1..][|rest|..] == input[|code|..];
    } else {
      code := [input[0]];
      assert code[1..] == [];
    }
  }

  lemma {:induction false} DigitsAreLine(p: Parser, pos: nat, input: Bytes) returns (digits: Bytes)
    requires p.state in {MajorDigit, MinorDigit} && Feed(p, pos, input).Ok?
    ensures
      var stop := if p.state == MajorDigit then DOT else SPACE;
      AllDigits(digits) && digits + [stop] <= input
    ensures Feed(p.(state := if p.state == MajorDigit then FirstMinorDigit else Status),
                 pos + |digits| + 1, input[|digits| + 1..]).Ok?
    decreases |input|
  {
    if input[0] == if p.state == MajorDigit then DOT else SPACE {
      digits := [];
    } else {
      var rest := DigitsAreLine(p, pos + 1, input[1..]);
      digits := [input[0]] + rest;
      assert input[1..][|rest| + 1..] == input[|digits| + 1..];
    }
  }

  lemma NumberIsLine(p: Parser, pos: nat, input: Bytes) returns (digits: Bytes)
    requires p.state in {FirstMajorDigit, FirstMinorDigit} && Feed(p, pos, input).Ok?
    ensures
      var stop := if p.state == FirstMajorDigit then DOT else SPACE;
      |digits| > 0 && AllDigits(digits) && digits + [stop] <= input
    ensures p.state == FirstMajorDigit ==> digits[0] != 48
    ensures Feed(p.(state := if p.state == FirstMajorDigit then FirstMinorDigit else Status),
                 pos + |digits| + 1, input[|digits| + 1..]).Ok?
  {
    var q := p.(state := if p.state == FirstMajorDigit then MajorDigit else MinorDigit);
    var rest := DigitsAreLine(q, pos + 1, input[1..]);
    digits := [input[0]] + rest;
    assert input[1..][|rest| + 1..] == input[|digits| + 1..];
  }

  lemma PrefixIsLine(input: Bytes)
    requires Feed(Fresh, 0, input).Ok?
    ensures HTTP <= input && Feed(Fresh.(state := FirstMajorDigit), 5, input[5..]).Ok?
  {
    var i1 := input[1..];
    assert Feed(Fresh.(state := H), 1, i1).Ok?;
    var i2 := i1[1..];
    assert Feed(Fresh.(state := HT), 2, i2).Ok?;
    var i3 := i2[1..];
    assert Feed(Fresh.(state := HTT), 3, i3).Ok?;
    var i4 := i3[1..];
    assert Feed(Fresh.(state := HTTP_), 4, i4).Ok?;
    assert i4[1..] == input[5..];
    assert i1[0] == input[1] && i2[0] == input[2] && i3[0] == input[3] && i4[0] == input[4];
  }

  lemma PrefixThenPrefix(a: Bytes, b: Bytes, x: Bytes)
    requires a <= x && b <= x[|a|..]
    ensures a + b <= x && x[|a + b|..] == x[|a|..][|b|..]
  {
  }

  lemma VersionIsLine(input: Bytes) returns (major: Bytes, minor: Bytes)
    requires Feed(Fresh, 0, input).Ok?
    ensures |major| > 0 && AllDigits(major) && major[0] != 48 && |minor| > 0 && AllDigits(minor)
    ensures
      var v := HTTP + (major + [DOT]) + (minor + [SPACE]);
      v <= input && Feed(Fresh.(state := Status), |v|, input[|v|..]).Ok?
  {
    PrefixIsLine(input);
    hide Feed, AllDigits;
    major := NumberIsLine(Fresh.(state := FirstMajorDigit), |HTTP|, input[|HTTP|..]);
    PrefixThenPrefix(HTTP, major + [DOT], input);
    minor := MinorIsLine(HTTP + (major + [DOT]), input);
  }

  lemma MinorIsLine(before: Bytes, input: Bytes) returns (minor: Bytes)
    requires before <= input && Feed(Fresh.(state := FirstMinorDigit), |before|, input[|before|..]).Ok?
    ensures |minor| > 0 && AllDigits(minor)
    ensures
      var v := before + (minor + [SPACE]);
      v <= input && Feed(Fresh.(state := Status), |v|, input[|v|..]).Ok?
  {
    hide Feed, AllDigits;
    minor := NumberIsLine(Fresh.(state := FirstMinorDigit), |before|, input[|before|..]);
    PrefixThenPrefix(before, minor + [SPACE], input);
  }

  /** What is accepted begins with a status line. */
  lemma AcceptsOnlyStatusLines(input: Bytes) returns (l: Line)
    requires Feed(Fresh, 0, input).Ok?
    ensures WellFormed(l) && Render(l) <= input
  {
    var major, minor := VersionIsLine(input);
    hide Feed, AllDigits, NoLineEnd;
    var v := HTTP + (major + [DOT]) + (minor + [SPACE]);
    var code := CodeIsLine(Fresh.(state := Status), |v|, input[|v|..]);
    PrefixThenPrefix(v, code, input);
    var p := Parser(SpaceAfterStatus, Shift(0, code), 3, Some(|v| + |code| - 3), None);
    var text, cr := EndIsLine(p, |v| + |code|, input[|v + code|..]);
    l := Line(major, minor, code, text, cr);
    PrefixThenPrefix(v + code, RenderEnd(l), input);
  }

  /** The verdict on any stream, however it is cut: accepted exactly if it begins with a status
      line, and then with that line's status in 0..999. */
  lemma VerdictIsGrammar(pieces: seq<Bytes>)
    ensures
      var v := FeedReads(Fresh, 0, pieces);
      && (v.Ok? <==> exists l :: WellFormed(l) && Render(l) <= Concat(pieces))
      && (v.Ok? ==> v.p.status <= 999)
  {
    SplitIndependent(Fresh, 0, pieces);
    var input := Concat(pieces);
    if Feed(Fresh, 0, input).Ok? {
      var l := AcceptsOnlyStatusLines(input);
    }
    if l :| WellFormed(l) && Render(l) <= input {
      assert input == Render(l) + input[|Render(l)|..];
      AcceptsStatusLine(l, input[|Render(l)|..]);
    }
  }

  const EXAMPLE := Line([49], [49], [50, 48, 48], Some(Text(32, [79, 75])), true)

  lemma ExampleCode()
    ensures IsCode([50, 48, 48]) && Shift(0, [50, 48, 48]) == 200
  {
    var code: Bytes := [50, 48, 48];
    assert code[1..] == [48, 48] && code[1..][1..] == [48] && code[1..][1..][1..] == [];
    assert Digits(code[1..][1..]) == 1;
    assert Digits(code[1..]) == 2;
    assert Shift(20, code[1..][1..]) == 200;
    assert Shift(2, code[1..]) == 200;
  }

  lemma ExampleText()
    ensures Render(EXAMPLE) == [72, 84, 84, 80, 47, 49, 46, 49, 32, 50, 48, 48, 32, 79, 75, 13, 10]
    ensures |RenderVersion(EXAMPLE) + EXAMPLE.code| == 12
  {
  }

  /** `HTTP/1.1 200 OK`, byte by byte: the status is 200, its digits begin at offset 9, the text ends at
      offset 15 and 17 bytes are consumed. */
  lemma ExampleLine()
    ensures Feed(Fresh, 0, [72, 84, 84, 80, 47, 49, 46, 49, 32, 50, 48, 48, 32, 79, 75, 13, 10])
         == Ok(Parser(Start, 200, 3, Some(9), Some(15)), 17)
  {
    hide Feed, Shift, IsCode, Render, RenderVersion;
    ExampleCode();
    ExampleText();
    AcceptsStatusLine(EXAMPLE, []);
    assert Render(EXAMPLE) + [] == Render(EXAMPLE);
  }

  // ----- rejected, or only unfinished

  predicate BeforeCode(s: State) {
    s in {Start, H, HT, HTT, HTTP_, FirstMajorDigit, MajorDigit, FirstMinorDigit, MinorDigit}
  }

  /** No digit of the status code is read before it begins, and fewer than three while it is read. */
  predicate Underway(p: Parser) {
    (BeforeCode(p.state) ==> p.count == 0) && (p.state == Status ==> p.count < 3)
  }

  lemma {:induction false} FeedKeepsUnderway(p: Parser, pos: nat, input: Bytes)
    requires Underway(p) && Feed(p, pos, input).Again?
    ensures Underway(Feed(p, pos, input).p)
    decreases |input|
  {
    if input != [] {
      FeedKeepsUnderway(Advance(p, pos, input[0]).p, pos + 1, input[1..]);
    }
  }

  /** One byte that keeps the parser going. */
  function NextByte(p: Parser): Byte {
    match p.state
    case Start => HTTP[0]
    case H => HTTP[1]
    case HT => HTTP[2]
    case HTT => HTTP[3]
    case HTTP_ => HTTP[4]
    case FirstMajorDigit => 49
    case MajorDigit => DOT
    case FirstMinorDigit => 48
    case MinorDigit => SPACE
    case Status => 48
    case _ => LF
  }

  /** How many such bytes are left until the line ends. */
  function ToGo(p: Parser): nat {
    match p.state
    case Start => 13
    case H => 12
    case HT => 11
    case HTT => 10
    case HTTP_ => 9
    case FirstMajorDigit => 8
    case MajorDigit => 7
    case FirstMinorDigit => 6
    case MinorDigit => 5
    case Status => if p.count < 3 then 4 - p.count else 1
    case _ => 0
  }

  lemma NextByteAdvances(p: Parser, pos: nat)
    requires Underway(p)
    ensures
      var v := Advance(p, pos, NextByte(p));
      v.Ok? || (v.Again? && Underway(v.p) && ToGo(v.p) < ToGo(p))
  {
  }

  /** From every state the line can still be completed. */
  lemma {:induction false} CanComplete(p: Parser, pos: nat) returns (more: Bytes)
    requires Underway(p)
    ensures Feed(p, pos, more).Ok?
    decreases ToGo(p)
  {
    NextByteAdvances(p, pos);
    var v := Advance(p, pos, NextByte(p));
    more := [NextByte(p)];
    if v.Again? {
      var rest := CanComplete(v.p, pos + 1);
      more := more + rest;
      assert more[1..] == rest;
    }
  }

  /** The input begins with a status line. */
  ghost predicate BeginsWithLine(input: Bytes) {
    exists l :: WellFormed(l) && Render(l) <= input
  }

  lemma OkIffLine(input: Bytes)
    ensures Feed(Fresh, 0, input).Ok? <==> BeginsWithLine(input)
  {
    VerdictIsGrammar([input]);
    SplitIndependent(Fresh, 0, [input]);
    ConcatSingle(input);
  }

  /** However the stream is cut: it is rejected if and only if no continuation makes it begin with a
      status line. So more input is asked for exactly while the line may still be completed. */
  lemma RejectedIff(pieces: seq<Bytes>)
    ensures FeedReads(Fresh, 0, pieces).NoHeader? <==> forall more :: !BeginsWithLine(Concat(pieces) + more)
  {
    SplitIndependent(Fresh, 0, pieces);
    hide FeedReads, BeginsWithLine, Concat;
    var input := Concat(pieces);
    var v := Feed(Fresh, 0, input);
    if v.NoHeader? {
      forall more ensures !BeginsWithLine(input + more) {
        FeedAppend(Fresh, 0, input, more);
        OkIffLine(input + more);
      }
    } else {
      var more: Bytes := [];
      if v.Again? {
        FeedKeepsUnderway(Fresh, 0, input);
        more := CanComplete(v.p, |input|);
      }
      FeedAppend(Fresh, 0, input, more);
      OkIffLine(input + more);
      assert BeginsWithLine(input + more);
    }
  }
}

module StatusLine {
  import opened Basics
  import opened StatusLineModel

  datatype Answer = NeedsMore | Accepted | Rejected

  class Upstream {
    var state: State          // r->state
    var status: nat
    var count: nat
    var start: Option<int>
    var end: Option<int>
    var pos: nat              // u->buffer.pos

    ghost function View(): Parser
      reads this
    {
      Parser(state, status, count, start, end)
    }

    constructor ()
      ensures View() == Fresh && pos == 0
    {
      state, status, count, start, end, pos := Start, 0, 0, None, None, 0;
    }

    /** One call of parse_status_line. `stream` is what was received so far; the call looks at the
        bytes from `pos` on. On rejection neither the position nor the automaton state is saved. */
    method ParseStatusLine(stream: Bytes) returns (answer: Answer)
      requires pos <= |stream|
      modifies this
      ensures match Feed(old(View()), old(pos), stream[old(pos)..])
              case Again(p) => answer == NeedsMore && View() == p && pos == |stream|
              case Ok(p, next) => answer == Accepted && View() == p && pos == next
              case NoHeader => answer == Rejected && pos == old(pos) && state == old(state)
    {
      var s := state;
      var i := pos;
      ghost var verdict := Feed(View(), pos, stream[pos..]);
      while i < |stream|
        invariant pos <= i <= |stream|
        invariant pos == old(pos) && state == old(state)
        invariant verdict == Feed(Parser(s, status, count, start, end), i, stream[i..])
      {
        var ch := stream[i];
        assert stream[i..][0] == ch && stream[i..][1..] == stream[i + 1..];
        var finished := false;
        match s {
        case Start => if ch != HTTP[0] { return Rejected; } s := H;
        case H => if ch != HTTP[1] { return Rejected; } s := HT;
        case HT => if ch != HTTP[2] { return Rejected; } s := HTT;
        case HTT => if ch != HTTP[3] { return Rejected; } s := HTTP_;
        case HTTP_ => if ch != HTTP[4] { return Rejected; } s := FirstMajorDigit;
        case FirstMajorDigit => if ch < 49 || ch > 57 { return Rejected; } s := MajorDigit;
        case MajorDigit => if ch == DOT { s := FirstMinorDigit; } else if !IsDigit(ch) { return Rejected; }
        case FirstMinorDigit => if !IsDigit(ch) { return Rejected; } s := MinorDigit;
        case MinorDigit => if ch == SPACE { s := Status; } else if !IsDigit(ch) { return Rejected; }
        case Status =>
          if ch != SPACE {
            if !IsDigit(ch) { return Rejected; }
            status := status * 10 + ch - 48;
            count := count + 1;
            if count == 3 {
              s := SpaceAfterStatus;
              start := Some(i - 2);
            }
          }
        case SpaceAfterStatus =>
          if ch == SPACE || ch == DOT { s := StatusText; }
          else if ch == CR { s := AlmostDone; }
          else if ch == LF { finished := true; }
          else { return Rejected; }
        case StatusText =>
          if ch == CR { s := AlmostDone; } else if ch == LF { finished := true; }
        case AlmostDone =>
          end := Some(i - 1);
          if ch != LF { return Rejected; }
          finished := true;
        }
        if finished {
          pos := i + 1;
          if end == None {
            end := Some(i);
          }
          state := Start;
          return Accepted;
        }
        i := i + 1;
      }
      pos := i;
      state := s;
      answer := NeedsMore;
    }
  }

  /** The calls for successive reads, until one of them decides. */
  method ParseReads(pieces: seq<Bytes>) returns (u: Upstream, answer: Answer)
    ensures fresh(u)
    ensures match FeedReads(Fresh, 0, pieces)
            case Again(p) => answer == NeedsMore && u.View() == p && u.pos == |Concat(pieces)|
            case Ok(p, next) => answer == Accepted && u.View() == p && u.pos == next
            case NoHeader => answer == Rejected
  {
    u := new Upstream();
    answer := NeedsMore;
    var stream: Bytes := [];
    var i := 0;
    assert pieces[0..] == pieces && pieces[..0] == [];
    while i < |pieces|
      invariant 0 <= i <= |pieces| && fresh(u)
      invariant stream == Concat(pieces[..i]) && u.pos == |stream| && answer == NeedsMore
      invariant FeedReads(Fresh, 0, pieces) == FeedReads(u.View(), u.pos, pieces[i..])
    {
      hide Feed, Concat;
      assert pieces[i..][0] == pieces[i] && pieces[i..][1..] == pieces[i + 1..];
      ConcatTake(pieces, i);
      stream := stream + pieces[i];
      assert stream[u.pos..] == pieces[i];
      answer := u.ParseStatusLine(stream);
      if answer != NeedsMore {
        return;
      }
      i := i + 1;
    }
    assert pieces[..i] == pieces && pieces[i..] == [];
  }
}
