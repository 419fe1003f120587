// Server-sent events: how the fixture frames JSON texts, and how sections 9.2.5 and 9.2.6 of
// the WHATWG HTML standard read a stream back. Text stands for its UTF-8 encoding.
module SseFraming {
  import opened FixtureServer

  const EVENT_LIMIT_BYTES := 8 * 1024 * 1024
  const COMMENT_LINE_BYTES := 2048
  const COMMENT_LINE_COUNT := EVENT_LIMIT_BYTES / COMMENT_LINE_BYTES + 1
  const FLOOD_PREFIX := ": reviewer keepalive "

  // ----- Encoding -----

  function Concat(parts: seq<string>): string {
    if parts == [] then "" else parts[0] + Concat(parts[1..])
  }

  function FloodComment(): string {
    FLOOD_PREFIX + seq(COMMENT_LINE_BYTES - |FLOOD_PREFIX| - 1, _ => 'x')
  }

  // The keepalive lines sent before the events.
  function Comments(profile: Profile): seq<string> {
    match profile
    case SseCommentFlood => seq(COMMENT_LINE_COUNT, _ => FloodComment() + "\r")
    case SseCrComments => [": reviewer keepalive\r"]
    case _ => []
  }

  function Separator(profile: Profile): string {
    if profile.SseCommentFlood? || profile.SseCrComments? then "\r\r" else "\n\n"
  }

  function DataLine(text: string): string {
    "data: " + text
  }

  function Frame(texts: seq<string>, separator: string): string {
    if texts == [] then "" else DataLine(texts[0]) + separator + Frame(texts[1..], separator)
  }

  function Encode(profile: Profile, texts: seq<string>): string {
    Concat(Comments(profile)) + Frame(texts, Separator(profile))
  }

  // ----- Reading a stream -----

  predicate IsBreak(c: char) {
    c == '\r' || c == '\n'
  }

  predicate OneLine(s: string) {
    forall c :: c in s ==> !IsBreak(c)
  }

  function FirstBreak(s: string): (i: nat)
    ensures i <= |s| && OneLine(s[..i]) && (i < |s| ==> IsBreak(s[i]))
  {
    if s == [] || IsBreak(s[0]) then 0
    else
      var i := FirstBreak(s[1..]);
      assert s[..1 + i] == [s[0]] + s[1..][..i];
      1 + i
  }

  // The terminated lines; a CR LF pair, a lone LF or a lone CR ends a line.
  function Lines(s: string): seq<string>
    decreases |s|
  {
    var i := FirstBreak(s);
    if i == |s| then []
    else if s[i] == '\r' && i + 1 < |s| && s[i + 1] == '\n' then [s[..i]] + Lines(s[i + 2..])
    else [s[..i]] + Lines(s[i + 1..])
  }

  datatype Event = Event(kind: string, data: string, lastId: string)

  datatype Buffers = Buffers(kind: string, data: string, lastId: string)

  function Colon(line: string): (i: nat)
    ensures i <= |line| && ':' !in line[..i] && (i < |line| ==> line[i] == ':')
  {
    if line == [] || line[0] == ':' then 0
    else
      var i := Colon(line[1..]);
      assert line[..1 + i] == [line[0]] + line[1..][..i];
      1 + i
  }

  function FieldValue(line: string): string {
    var i := Colon(line);
    if i == |line| then ""
    else if i + 1 < |line| && line[i + 1] == ' ' then line[i + 2..]
    else line[i + 1..]
  }

  function SetField(b: Buffers, field: string, value: string): Buffers {
    if field == "event" then b.(kind := value)
    else if field == "data" then b.(data := b.data + value + "\n")
    else if field == "id" && '\0' !in value then b.(lastId := value)
    else b
  }

  function Interpret(b: Buffers, lines: seq<string>): seq<Event>
    decreases |lines|
  {
    if lines == [] then []
    else if lines[0] == "" then
      (if b.data == "" then []
       else [Event(if b.kind == "" then "message" else b.kind, b.data[..|b.data| - 1], b.lastId)])
      + Interpret(Buffers("", "", b.lastId), lines[1..])
    else if lines[0][0] == ':' then Interpret(b, lines[1..])
    else Interpret(SetField(b, lines[0][..Colon(lines[0])], FieldValue(lines[0])), lines[1..])
  }

  function Parse(stream: string): seq<Event> {
    var text := if stream != [] && stream[0] == '\U{FEFF}' then stream[1..] else stream;
    Interpret(EMPTY, Lines(text))
  }

  const EMPTY := Buffers("", "", "")

  // ----- The round trip -----

  lemma {:induction false} BreakAt(s: string, n: nat)
    requires n < |s| && IsBreak(s[n]) && OneLine(s[..n])
    ensures FirstBreak(s) == n
    decreases n
  {
    if n > 0 {
      assert s[0] in s[..n] && forall c :: c in s[1..][..n - 1] ==> c in s[..n];
      BreakAt(s[1..], n - 1);
    }
  }

  lemma {:induction false} ColonAt(s: string, n: nat)
    requires n < |s| && s[n] == ':' && ':' !in s[..n]
    ensures Colon(s) == n
    decreases n
  {
    if n > 0 {
      assert s[0] in s[..n] && forall c :: c in s[1..][..n - 1] ==> c in s[..n];
      ColonAt(s[1..], n - 1);
    }
  }

  lemma LineThen(line: string, c: char, rest: string)
    requires OneLine(line) && IsBreak(c) && (c == '\r' && rest != [] ==> rest[0] != '\n')
    ensures Lines(line + [c] + rest) == [line] + Lines(rest)
  {
    var s := line + [c] + rest;
    assert s[|line|] == c && s[..|line|] == line && s[|line| + 1..] == rest;
    BreakAt(s, |line|);
  }

  lemma DataField(text: string)
    ensures var line := DataLine(text);
            line[0] == 'd' && Colon(line) == 4 && line[..4] == "data" && FieldValue(line) == text
    ensures OneLine(text) ==> OneLine(DataLine(text))
  {
    var line := DataLine(text);
    assert line[0] == 'd' && line[1] == 'a' && line[2] == 't' && line[3] == 'a' && line[4] == ':' && line[5] == ' ';
    assert line[..4] == "data" && line[6..] == text;
    ColonAt(line, 4);
  }

  lemma DataLineThen(text: string, rest: seq<string>)
    ensures Interpret(EMPTY, [DataLine(text)] + rest) == Interpret(Buffers("", text + "\n", ""), rest)
  {
    DataField(text);
    var line := DataLine(text);
    var lines := [line] + rest;
    assert lines[1..] == rest;
    assert SetField(EMPTY, "data", text) == Buffers("", text + "\n", "") by {
      assert "" + text == text;
    }
  }

  lemma BlankLineThen(text: string, rest: seq<string>)
    ensures Interpret(Buffers("", text + "\n", ""), [""] + rest) == [Event("message", text, "")] + Interpret(EMPTY, rest)
  {
    var data := text + "\n";
    assert data[..|data| - 1] == text;
    var lines := [""] + rest;
    assert lines[1..] == rest;
  }

  lemma LineAndBlank(line: string, c: char, tail: string)
    requires OneLine(line) && IsBreak(c) && (tail != [] ==> !IsBreak(tail[0]))
    ensures Lines(line + [c] + ([c] + tail)) == [line] + ([[]] + Lines(tail))
  {
    LineThen(line, c, [c] + tail);
    assert [] + [c] + tail == [c] + tail;
    LineThen([], c, tail);
  }

  lemma FrameStep(texts: seq<string>, c: char)
    requires texts != []
    ensures Frame(texts, [c, c]) == DataLine(texts[0]) + [c] + ([c] + Frame(texts[1..], [c, c]))
  {}

  // One framed text is one message event.
  lemma FrameEvent(text: string, rest: seq<string>)
    ensures Interpret(EMPTY, [DataLine(text)] + ([""] + rest)) == [Event("message", text, "")] + Interpret(EMPTY, rest)
  {
    DataLineThen(text, [""] + rest);
    BlankLineThen(text, rest);
  }

  lemma FrameStart(texts: seq<string>, separator: string)
    ensures Frame(texts, separator) != [] ==> Frame(texts, separator)[0] == 'd'
  {
    if texts != [] {
      DataField(texts[0]);
    }
  }

  function Messages(texts: seq<string>): seq<Event> {
    seq(|texts|, i requires 0 <= i < |texts| => Event("message", texts[i], ""))
  }

  lemma MessagesStep(texts: seq<string>)
    requires texts != []
    ensures Messages(texts) == [Event("message", texts[0], "")] + Messages(texts[1..])
  {}

  lemma {:induction false} FramesReadBack(texts: seq<string>, c: char)
    requires IsBreak(c) && forall t :: t in texts ==> OneLine(t)
    ensures Interpret(EMPTY, Lines(Frame(texts, [c, c]))) == Messages(texts)
    decreases |texts|
  {
    if texts == [] {
      assert Lines("") == [];
    } else {
      var text, tail := texts[0], Frame(texts[1..], [c, c]);
      FramesReadBack(texts[1..], c);
      FrameStart(texts[1..], [c, c]);
      FrameStep(texts, c);
      DataField(text);
      LineAndBlank(DataLine(text), c, tail);
      FrameEvent(text, Lines(tail));
      MessagesStep(texts);
    }
  }

  lemma CommentIsIgnored(comment: string, rest: string)
    requires comment != [] && comment[0] == ':' && OneLine(comment)
    requires rest != [] ==> rest[0] != '\n'
    ensures Interpret(EMPTY, Lines(comment + "\r" + rest)) == Interpret(EMPTY, Lines(rest))
  {
    LineThen(comment, '\r', rest);
    var lines := [comment] + Lines(rest);
    assert lines[1..] == Lines(rest);
  }

  predicate IsComment(line: string) {
    && |line| > 1 && line[0] == ':'
    && line[|line| - 1] == '\r' && OneLine(line[..|line| - 1])
  }

  lemma ConcatStart(lines: seq<string>, rest: string)
    requires forall l :: l in lines ==> IsComment(l)
    requires rest != [] ==> rest[0] == 'd'
    ensures var s := Concat(lines) + rest; s != [] ==> s[0] == ':' || s[0] == 'd'
  {
    if lines != [] {
      assert lines[0] in lines;
    }
  }

  lemma ConcatStep(lines: seq<string>, rest: string)
    requires lines != [] && lines[0] != []
    ensures var line := lines[0];
            Concat(lines) + rest == line[..|line| - 1] + [line[|line| - 1]] + (Concat(lines[1..]) + rest)
  {
    var line := lines[0];
    assert line == line[..|line| - 1] + [line[|line| - 1]];
  }

  lemma {:induction false} CommentsAreIgnored(lines: seq<string>, rest: string)
    requires forall l :: l in lines ==> IsComment(l)
    requires rest != [] ==> rest[0] == 'd'
    ensures Interpret(EMPTY, Lines(Concat(lines) + rest)) == Interpret(EMPTY, Lines(rest))
    decreases |lines|
  {
    if lines == [] {
      assert Concat(lines) + rest == rest;
    } else {
      CommentsAreIgnored(lines[1..], rest);
      ConcatStart(lines[1..], rest);
      assert lines[0] in lines;
      ConcatStep(lines, rest);
      CommentIsIgnored(lines[0][..|lines[0]| - 1], Concat(lines[1..]) + rest);
    }
  }

  lemma CommentLines(profile: Profile)
    ensures forall l :: l in Comments(profile) ==> IsComment(l)
  {
    if profile.SseCommentFlood? {
      var line := FloodComment() + "\r";
      assert line[0] == FLOOD_PREFIX[0] == ':' && OneLine(FLOOD_PREFIX);
      assert line[..|line| - 1] == FloodComment();
    } else if profile.SseCrComments? {
      var line := ": reviewer keepalive\r";
      assert line[0] == ':' && line[..|line| - 1] == ": reviewer keepalive";
    }
  }

  // Reading an encoded stream gives back exactly the texts, for every framing.
  lemma StreamRoundTrips(profile: Profile, texts: seq<string>)
    requires forall t :: t in texts ==> OneLine(t)
    ensures Parse(Encode(profile, texts)) == Messages(texts)
  {
    var c := if profile.SseCommentFlood? || profile.SseCrComments? then '\r' else '\n';
    assert Separator(profile) == [c, c];
    FrameStart(texts, [c, c]);
    FramesReadBack(texts, c);
    CommentLines(profile);
    ConcatStart(Comments(profile), Frame(texts, [c, c]));
    CommentsAreIgnored(Comments(profile), Frame(texts, [c, c]));
  }

  // ----- What the framings are for -----

  lemma {:induction false} ConcatLength(lines: seq<string>)
    requires forall l :: l in lines ==> |l| == 2048
    ensures |Concat(lines)| == |lines| * 2048
  {
    if lines != [] {
      assert lines[0] in lines && forall l :: l in lines[1..] ==> l in lines;
      ConcatLength(lines[1..]);
    }
  }

  // The flood of comments is longer than an event may be, in lines of 2048 bytes.
  lemma FloodExceedsTheLimit()
    ensures |Comments(SseCommentFlood)| == 4097 && forall l :: l in Comments(SseCommentFlood) ==> |l| == 2048
    ensures |Concat(Comments(SseCommentFlood))| == 4097 * 2048 > 8 * 1024 * 1024
  {
    ConcatLength(Comments(SseCommentFlood));
  }

  predicate Lacks(s: string, c: char) {
    c !in s
  }

  lemma {:induction false} ConcatLacks(lines: seq<string>, c: char)
    requires forall l :: l in lines ==> Lacks(l, c)
    ensures Lacks(Concat(lines), c)
  {
    if lines != [] {
      assert lines[0] in lines && forall l :: l in lines[1..] ==> l in lines;
      ConcatLacks(lines[1..], c);
    }
  }

  lemma {:induction false} FrameLacks(texts: seq<string>, separator: string, c: char)
    requires IsBreak(c) && Lacks(separator, c) && forall t :: t in texts ==> OneLine(t)
    ensures Lacks(Frame(texts, separator), c)
  {
    if texts != [] {
      assert texts[0] in texts && forall t :: t in texts[1..] ==> t in texts;
      assert Lacks("data: ", c);
      FrameLacks(texts[1..], separator, c);
    }
  }

  predicate EndsLinesWithCr(profile: Profile) {
    profile == SseCrComments || profile == SseCommentFlood
  }

  lemma CommentsLackLf(profile: Profile)
    requires EndsLinesWithCr(profile)
    ensures Lacks(Concat(Comments(profile)), '\n') && Comments(profile) != []
  {
    CommentLines(profile);
    forall l | l in Comments(profile)
      ensures Lacks(l, '\n')
    {
      assert IsComment(l);
    }
    ConcatLacks(Comments(profile), '\n');
  }

  // Two profiles begin with a comment and end every line with a lone CR; in all others only LF ends
  // a line, and the first line is the first event's.
  lemma StreamBreaks(profile: Profile, texts: seq<string>)
    requires forall t :: t in texts ==> OneLine(t)
    ensures EndsLinesWithCr(profile) ==> Encode(profile, texts) != [] && Encode(profile, texts)[0] == ':'
    ensures EndsLinesWithCr(profile) ==> '\n' !in Encode(profile, texts)
    ensures !EndsLinesWithCr(profile) ==> '\r' !in Encode(profile, texts)
    ensures !EndsLinesWithCr(profile) && texts != [] ==> "data: " <= Encode(profile, texts)
    ensures !EndsLinesWithCr(profile) && texts == [] ==> Encode(profile, texts) == []
  {
    var frame := Frame(texts, Separator(profile));
    if EndsLinesWithCr(profile) {
      CommentsLackLf(profile);
      FrameLacks(texts, Separator(profile), '\n');
      CommentLines(profile);
      var comments := Comments(profile);
      assert comments[0] in comments && IsComment(comments[0]);
      assert Concat(comments) == comments[0] + Concat(comments[1..]);
    } else {
      FrameLacks(texts, Separator(profile), '\r');
      assert [] + frame == frame && Encode(profile, texts) == frame;
    }
  }
}
