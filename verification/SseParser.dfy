/** Framing of the event stream: data lines gathered until a blank line, then decoded. */
module SseParser {
  import opened Common

  /** What decoding the text of a frame gives: an event, the protocol error that the stream loop
      catches, or another exception. */
  datatype Decoded<+E> = Good(event: E) | Bad | Raises

  /** How reading some lines ends: still gathering, or stopped by an exception. */
  datatype End = Open(gathered: seq<string>) | ProtocolError | Escaped

  datatype Parsed<+E> = Parsed(events: seq<E>, end: End)

  // ---- Text ----

  /** The characters that stripping a string removes. */
  predicate IsSpace(c: char) {
    || '\U{9}' <= c <= '\U{D}' || '\U{1C}' <= c <= '\U{20}' || c == '\U{85}' || c == '\U{A0}' || c == '\U{1680}'
    || '\U{2000}' <= c <= '\U{200A}' || c == '\U{2028}' || c == '\U{2029}' || c == '\U{202F}' || c == '\U{205F}'
    || c == '\U{3000}'
  }

  function StripNewlines(s: string): string {
    if s != "" && s[|s| - 1] == '\n' then StripNewlines(s[..|s| - 1]) else s
  }

  function StripRight(s: string): string {
    if s != "" && IsSpace(s[|s| - 1]) then StripRight(s[..|s| - 1]) else s
  }

  function StripLeft(s: string): string {
    if s != "" && IsSpace(s[0]) then StripLeft(s[1..]) else s
  }

  function Strip(s: string): string {
    StripLeft(StripRight(s))
  }

  const DATA := "data:"

  predicate IsBlank(rawLine: string) {
    StripNewlines(rawLine) == ""
  }

  predicate IsData(rawLine: string) {
    DATA <= StripNewlines(rawLine)
  }

  function DataOf(rawLine: string): string
    requires IsData(rawLine)
  {
    Strip(StripNewlines(rawLine)[|DATA|..])
  }

  function Join(lines: seq<string>): string {
    if lines == [] then "" else if |lines| == 1 then lines[0] else lines[0] + "\n" + Join(lines[1..])
  }

  // ---- Parsing ----

  function ParseFrom<E>(decode: string -> Decoded<E>, gathered: seq<string>, lines: seq<string>): Parsed<E>
    decreases |lines|
  {
    if lines == [] then Parsed([], Open(gathered))
    else if IsBlank(lines[0]) then
      if gathered == [] then ParseFrom(decode, [], lines[1..])
      else
        match decode(Join(gathered))
        case Good(event) => var rest := ParseFrom(decode, [], lines[1..]); Parsed([event] + rest.events, rest.end)
        case Bad => Parsed([], ProtocolError)
        case Raises => Parsed([], Escaped)
    else if IsData(lines[0]) then ParseFrom(decode, gathered + [DataOf(lines[0])], lines[1..])
    else ParseFrom(decode, gathered, lines[1..])
  }

  function Parse<E>(decode: string -> Decoded<E>, lines: seq<string>): Parsed<E> {
    ParseFrom(decode, [], lines)
  }

  /** What is yielded before the lines run out or decoding a frame raises. */
  method ParseLines<E>(decode: string -> Decoded<E>, lines: seq<string>) returns (events: seq<E>, end: End)
    ensures Parsed(events, end) == Parse(decode, lines)
  {
    events := [];
    var dataLines: seq<string> := [];
    var i := 0;
    while i < |lines|
      invariant 0 <= i <= |lines|
      invariant var rest := ParseFrom(decode, dataLines, lines[i..]);
        Parsed(events + rest.events, rest.end) == Parse(decode, lines)
    {
      var line := StripNewlines(lines[i]);
      assert lines[i..][1..] == lines[i + 1..];
      i := i + 1;
      if line == "" {
        if dataLines != [] {
          match decode(Join(dataLines)) {
            case Good(event) => events := events + [event];
            case Bad => return events, ProtocolError;
            case Raises => return events, Escaped;
          }
        }
        dataLines := [];
      } else if DATA <= line {
        dataLines := dataLines + [Strip(line[|DATA|..])];
      }
    }
    end := Open(dataLines);
  }

  // ---- Composition ----

  function Then<E>(decode: string -> Decoded<E>, first: Parsed<E>, lines: seq<string>): Parsed<E> {
    if !first.end.Open? then first
    else
      var rest := ParseFrom(decode, first.end.gathered, lines);
      Parsed(first.events + rest.events, rest.end)
  }

  lemma {:induction false} ParseAppend<E>(decode: string -> Decoded<E>, gathered: seq<string>, xs: seq<string>,
      ys: seq<string>)
    ensures ParseFrom(decode, gathered, xs + ys) == Then(decode, ParseFrom(decode, gathered, xs), ys)
    decreases |xs|
  {
    if xs == [] {
      assert xs + ys == ys;
    } else {
      assert (xs + ys)[1..] == xs[1..] + ys;
      if IsBlank(xs[0]) {
        ParseAppend(decode, [], xs[1..], ys);
      } else if IsData(xs[0]) {
        ParseAppend(decode, gathered + [DataOf(xs[0])], xs[1..], ys);
      } else {
        ParseAppend(decode, gathered, xs[1..], ys);
      }
    }
  }

  lemma BlankStartsOver<E>(decode: string -> Decoded<E>, gathered: seq<string>, blank: string)
    requires IsBlank(blank)
    ensures var p := ParseFrom(decode, gathered, [blank]); p.end.Open? ==> p.end == Open([])
  {
    assert [blank][1..] == [];
    assert ParseFrom(decode, [], []) == Parsed([], Open([]));
  }

  /** A stream that ends in a blank line and decodes can be continued as if it were the first. */
  lemma ParseComposes<E>(decode: string -> Decoded<E>, xs: seq<string>, ys: seq<string>)
    requires xs != [] && IsBlank(xs[|xs| - 1]) && Parse(decode, xs).end.Open?
    ensures Parse(decode, xs).end == Open([])
    ensures Parse(decode, xs + ys) == Parsed(Parse(decode, xs).events + Parse(decode, ys).events, Parse(decode, ys).end)
  {
    var front, last := xs[..|xs| - 1], xs[|xs| - 1];
    assert xs == front + [last] && [last][1..] == [];
    ParseAppend(decode, [], front, [last]);
    BlankStartsOver(decode, Parse(decode, front).end.gathered, last);
    ParseAppend(decode, [], xs, ys);
  }

  function WithoutNoise(lines: seq<string>): seq<string> {
    if lines == [] then []
    else (if IsBlank(lines[0]) || IsData(lines[0]) then [lines[0]] else []) + WithoutNoise(lines[1..])
  }

  /** Comments and fields other than data change nothing. */
  lemma {:induction false} NoiseIsIgnored<E>(decode: string -> Decoded<E>, gathered: seq<string>, lines: seq<string>)
    ensures ParseFrom(decode, gathered, WithoutNoise(lines)) == ParseFrom(decode, gathered, lines)
    decreases |lines|
  {
    if lines != [] {
      var rest := WithoutNoise(lines[1..]);
      if IsBlank(lines[0]) {
        assert ([lines[0]] + rest)[1..] == rest;
        NoiseIsIgnored(decode, [], lines[1..]);
      } else if IsData(lines[0]) {
        assert ([lines[0]] + rest)[1..] == rest;
        NoiseIsIgnored(decode, gathered + [DataOf(lines[0])], lines[1..]);
      } else {
        assert [] + rest == rest;
        NoiseIsIgnored(decode, gathered, lines[1..]);
      }
    }
  }

  /** What stripping removes among the first 128 characters. */
  predicate IsAsciiSpace(c: char) {
    c in " \t\n\r" || c in "\U{B}\U{C}" || c in "\U{1C}\U{1D}\U{1E}\U{1F}"
  }

  lemma SpacesAre(c: char)
    ensures c < '\U{80}' ==> (IsSpace(c) <==> IsAsciiSpace(c))
  {
  }

  /** A line is a field, a colon and the rest; a comment has an empty field. */
  ghost predicate IsField(line: string, field: string, rest: string) {
    ':' !in field && line == field + ":" + rest
  }

  /** A field other than data, or a line without a colon that is not blank. */
  ghost predicate IsOther(line: string, field: string, rest: string) {
    (IsField(line, field, rest) && field != "data") || (':' !in line && exists c | c in line :: c != '\n')
  }

  /** Any field but data changes nothing wherever it stands: event, id, retry, or a comment. Neither does a
      line without a colon, unless it is blank. */
  lemma OtherLineIsIgnored<E>(decode: string -> Decoded<E>, gathered: seq<string>, xs: seq<string>, line: string,
                              ys: seq<string>, field: string, rest: string)
    requires IsOther(line, field, rest)
    ensures ParseFrom(decode, gathered, xs + [line] + ys) == ParseFrom(decode, gathered, xs + ys)
  {
    OtherLineIsNoise(line, field, rest);
    ParseAppend(decode, gathered, xs, [line] + ys);
    ParseAppend(decode, gathered, xs, ys);
    assert xs + [line] + ys == xs + ([line] + ys) && ([line] + ys)[1..] == ys;
  }

  lemma OtherLineIsNoise(line: string, field: string, rest: string)
    requires IsOther(line, field, rest)
    ensures !IsBlank(line) && !IsData(line)
  {
    StrippedIs(line);
    if IsField(line, field, rest) {
      assert line[|field|] == ':';
    }
    if IsData(line) {
      DataIsTheField(line, field, rest);
    }
  }

  /** A data line has a colon, and its field is data. */
  lemma DataIsTheField(line: string, field: string, rest: string)
    requires IsData(line)
    ensures ':' in line && (IsField(line, field, rest) ==> field == "data")
  {
    StrippedIs(line);
    assert line[..5] == StripNewlines(line)[..5] == "data:" && line[4] == ':';
    if IsField(line, field, rest) {
      assert line[|field|] == ':' && field == line[..|field|];
      assert forall k | 0 <= k < 4 :: line[k] == "data:"[k] && line[k] != ':';
      assert forall k | 0 <= k < |field| :: line[k] == field[k] && field[k] in field;
      assert |field| == 4;
    }
  }

  /** Stripping newlines leaves a beginning, and drops nothing but newlines. */
  lemma {:induction false} StrippedIs(s: string)
    ensures StripNewlines(s) <= s && forall i | |StripNewlines(s)| <= i < |s| :: s[i] == '\n'
    decreases |s|
  {
    if s != "" && s[|s| - 1] == '\n' {
      StrippedIs(s[..|s| - 1]);
    }
  }

  /** Further blank lines after a blank line add nothing, wherever they are. */
  lemma RepeatedBlankIsIgnored<E>(decode: string -> Decoded<E>, xs: seq<string>, blank: string, again: string,
      ys: seq<string>)
    requires IsBlank(blank) && IsBlank(again)
    ensures Parse(decode, xs + [blank] + [again] + ys) == Parse(decode, xs + [blank] + ys)
  {
    var head := xs + [blank];
    ParseAppend(decode, [], head, ys);
    ParseAppend(decode, [], head, [again] + ys);
    assert head + ([again] + ys) == head + [again] + ys && ([again] + ys)[1..] == ys;
    if Parse(decode, head).end.Open? {
      ParseComposes(decode, head, []);
    }
  }

  /** Lines after the last blank one yield nothing. */
  lemma {:induction false} UnterminatedYieldsNothing<E>(decode: string -> Decoded<E>, gathered: seq<string>,
      lines: seq<string>)
    requires forall i | 0 <= i < |lines| :: !IsBlank(lines[i])
    ensures ParseFrom(decode, gathered, lines).events == [] && ParseFrom(decode, gathered, lines).end.Open?
    decreases |lines|
  {
    if lines != [] {
      assert !IsBlank(lines[0]);
      UnterminatedYieldsNothing(decode, if IsData(lines[0]) then gathered + [DataOf(lines[0])] else gathered,
        lines[1..]);
    }
  }

  // ---- Printing ----

  /** A line of a payload, with whatever white space a printer puts around it. */
  datatype Line = Line(before: string, text: string, after: string)

  predicate AllSpace(s: string) {
    forall c | c in s :: IsSpace(c)
  }

  predicate Printable(l: Line) {
    && AllSpace(l.before) && AllSpace(l.after)
    && (l.text != "" ==> !IsSpace(l.text[0]) && !IsSpace(l.text[|l.text| - 1]))
  }

  type Payload = seq<Line>

  ghost predicate WellFormed(p: Payload) {
    p != [] && forall i | 0 <= i < |p| :: Printable(p[i])
  }

  function Texts(p: Payload): seq<string> {
    if p == [] then [] else [p[0].text] + Texts(p[1..])
  }

  function PrintLines(p: Payload): seq<string> {
    if p == [] then [] else ["data:" + p[0].before + p[0].text + p[0].after] + PrintLines(p[1..])
  }

  function PrintFrame(p: Payload): seq<string> {
    PrintLines(p) + [""]
  }

  function Print(ps: seq<Payload>): seq<string> {
    if ps == [] then [] else PrintFrame(ps[0]) + Print(ps[1..])
  }

  // -- Stripping undoes padding --

  lemma {:induction false} StripRightPad(s: string, pad: string)
    requires AllSpace(pad) && (s == "" || !IsSpace(s[|s| - 1]))
    ensures StripRight(s + pad) == s
    decreases |pad|
  {
    if pad == "" {
      assert s + pad == s;
    } else {
      assert (s + pad)[..|s + pad| - 1] == s + pad[..|pad| - 1];
      assert pad[|pad| - 1] in pad;
      StripRightPad(s, pad[..|pad| - 1]);
    }
  }

  lemma {:induction false} StripLeftPad(pad: string, s: string)
    requires AllSpace(pad) && (s == "" || !IsSpace(s[0]))
    ensures StripLeft(pad + s) == s
    decreases |pad|
  {
    if pad == "" {
      assert pad + s == s;
    } else {
      assert (pad + s)[1..] == pad[1..] + s;
      assert pad[0] in pad;
      StripLeftPad(pad[1..], s);
    }
  }

  lemma StripPad(l: Line)
    requires Printable(l)
    ensures Strip(l.before + l.text + l.after) == l.text
  {
    if l.text == "" {
      assert l.before + l.text + l.after == "" + (l.before + l.after);
      StripRightPad("", l.before + l.after);
    } else {
      StripRightPad(l.before + l.text, l.after);
      StripLeftPad(l.before, l.text);
    }
  }

  /** Removing trailing newlines first makes no difference to stripping, and spares a data prefix. */
  lemma {:induction false} NewlinesAreSpace(prefix: string, s: string)
    requires prefix != "" && prefix[|prefix| - 1] != '\n'
    ensures prefix <= StripNewlines(prefix + s)
    ensures Strip(StripNewlines(prefix + s)[|prefix|..]) == Strip(s)
    decreases |s|
  {
    if s != "" && s[|s| - 1] == '\n' {
      assert (prefix + s)[..|prefix + s| - 1] == prefix + s[..|s| - 1];
      NewlinesAreSpace(prefix, s[..|s| - 1]);
    } else {
      assert (prefix + s)[|prefix|..] == s;
    }
  }

  lemma PrintedLine(l: Line)
    requires Printable(l)
    ensures var line := "data:" + l.before + l.text + l.after;
      !IsBlank(line) && IsData(line) && DataOf(line) == l.text
  {
    var s := l.before + l.text + l.after;
    assert "data:" + l.before + l.text + l.after == DATA + s;
    NewlinesAreSpace(DATA, s);
    StripPad(l);
  }

  // -- Round trip --

  lemma {:induction false} ParseLinesOf<E>(decode: string -> Decoded<E>, gathered: seq<string>, p: Payload)
    requires forall i | 0 <= i < |p| :: Printable(p[i])
    ensures ParseFrom(decode, gathered, PrintLines(p)) == Parsed([], Open(gathered + Texts(p)))
    ensures forall i | 0 <= i < |PrintLines(p)| :: !IsBlank(PrintLines(p)[i])
    decreases |p|
  {
    if p == [] {
      assert gathered + [] == gathered;
    } else {
      PrintedLine(p[0]);
      ParseLinesOf(decode, gathered + [p[0].text], p[1..]);
      assert gathered + [p[0].text] + Texts(p[1..]) == gathered + Texts(p);
    }
  }

  /** The frames decoded one after the other, up to the first that does not decode. */
  function DecodeAll<E>(decode: string -> Decoded<E>, ps: seq<Payload>): Parsed<E> {
    if ps == [] then Parsed([], Open([]))
    else
      match decode(Join(Texts(ps[0])))
      case Good(event) => var rest := DecodeAll(decode, ps[1..]); Parsed([event] + rest.events, rest.end)
      case Bad => Parsed([], ProtocolError)
      case Raises => Parsed([], Escaped)
  }

  lemma ParseFrame<E>(decode: string -> Decoded<E>, p: Payload)
    requires WellFormed(p)
    ensures Parse(decode, PrintFrame(p)) == DecodeAll(decode, [p])
  {
    ParseLinesOf(decode, [], p);
    ParseAppend(decode, [], PrintLines(p), [""]);
    assert [] + Texts(p) == Texts(p);
    BlankDecodes(decode, Texts(p));
    DecodeOne(decode, p);
  }

  lemma BlankDecodes<E>(decode: string -> Decoded<E>, gathered: seq<string>)
    requires gathered != []
    ensures ParseFrom(decode, gathered, [""]) ==
      match decode(Join(gathered))
      case Good(event) => Parsed([event], Open([]))
      case Bad => Parsed([], ProtocolError)
      case Raises => Parsed([], Escaped)
  {
    var blank: seq<string> := [""];
    assert blank[1..] == [];
    assert ParseFrom(decode, [], blank[1..]) == Parsed([], Open([]));
  }

  /** Reading what was printed gives the payloads back, decoded, up to the first undecodable one. */
  lemma {:induction false} RoundTrip<E>(decode: string -> Decoded<E>, ps: seq<Payload>)
    requires forall i | 0 <= i < |ps| :: WellFormed(ps[i])
    ensures Parse(decode, Print(ps)) == DecodeAll(decode, ps)
  {
    if ps != [] {
      RoundTrip(decode, ps[1..]);
      ParseAppend(decode, [], PrintFrame(ps[0]), Print(ps[1..]));
      ParseFrame(decode, ps[0]);
      DecodeOne(decode, ps[0]);
    }
  }

  // -- Payload texts --

  /** The lines of a text, and the text again. */
  function LinesOf(text: string): seq<string> {
    if text == "" then [""]
    else
      var rest := LinesOf(text[1..]);
      if text[0] == '\n' then [""] + rest else [[text[0]] + rest[0]] + rest[1..]
  }

  lemma {:induction false} LinesJoin(text: string)
    ensures LinesOf(text) != [] && Join(LinesOf(text)) == text
  {
    if text != "" {
      var rest := LinesOf(text[1..]);
      LinesJoin(text[1..]);
      if text[0] == '\n' {
        JoinCons("", rest);
      } else {
        assert rest == [rest[0]] + rest[1..];
        JoinHead(text[0], rest[0], rest[1..]);
      }
    }
  }

  lemma JoinCons(line: string, rest: seq<string>)
    requires rest != []
    ensures Join([line] + rest) == line + "\n" + Join(rest)
  {
    assert ([line] + rest)[1..] == rest;
  }

  lemma JoinHead(c: char, line: string, rest: seq<string>)
    ensures Join([[c] + line] + rest) == [c] + Join([line] + rest)
  {
    if rest == [] {
      assert [[c] + line] + rest == [[c] + line] && [line] + rest == [line];
    } else {
      JoinCons([c] + line, rest);
      JoinCons(line, rest);
    }
  }

  /** A text as a payload, with the given white space before each of its lines. */
  function PayloadOf(lines: seq<string>, pad: string): Payload {
    if lines == [] then [] else [Line(pad, lines[0], "")] + PayloadOf(lines[1..], pad)
  }

  lemma {:induction false} PayloadIs(lines: seq<string>, pad: string)
    ensures |PayloadOf(lines, pad)| == |lines| && Texts(PayloadOf(lines, pad)) == lines
    ensures forall i | 0 <= i < |lines| :: PayloadOf(lines, pad)[i] == Line(pad, lines[i], "")
  {
    if lines != [] {
      PayloadIs(lines[1..], pad);
    }
  }

  /** No line of the text begins or ends with white space. */
  ghost predicate Tidy(text: string) {
    forall i | 0 <= i < |LinesOf(text)| ::
      var line := LinesOf(text)[i];
      line != "" ==> !IsSpace(line[0]) && !IsSpace(line[|line| - 1])
  }

  /** What is decoded is the very text that was sent: its lines, each behind "data:" and a space or not,
      arrive with the newlines between them. */
  lemma TextRoundTrip<E>(decode: string -> Decoded<E>, text: string, pad: string)
    requires Tidy(text) && pad in {"", " "}
    ensures Parse(decode, PrintFrame(PayloadOf(LinesOf(text), pad))) ==
      match decode(text)
      case Good(event) => Parsed([event], Open([]))
      case Bad => Parsed([], ProtocolError)
      case Raises => Parsed([], Escaped)
  {
    var lines := LinesOf(text);
    var p := PayloadOf(lines, pad);
    LinesJoin(text);
    PayloadIs(lines, pad);
    forall i | 0 <= i < |p|
      ensures Printable(p[i])
    {
      assert p[i] == Line(pad, lines[i], "");
    }
    ParseFrame(decode, p);
    DecodeOne(decode, p);
  }

  lemma DecodeOne<E>(decode: string -> Decoded<E>, p: Payload)
    ensures DecodeAll(decode, [p]) ==
      match decode(Join(Texts(p)))
      case Good(event) => Parsed([event], Open([]))
      case Bad => Parsed([], ProtocolError)
      case Raises => Parsed([], Escaped)
  {
    var ps: seq<Payload> := [p];
    assert ps[1..] == [];
    assert DecodeAll(decode, ps[1..]) == Parsed([], Open([]));
  }

  predicate Decodes<E>(decode: string -> Decoded<E>, p: Payload) {
    decode(Join(Texts(p))).Good?
  }

  /** If frame `n` is the first that does not decode, exactly the first `n` events are yielded. */
  lemma {:induction false} FirstBadFrameEnds<E>(decode: string -> Decoded<E>, ps: seq<Payload>, n: nat)
    requires n <= |ps| && (forall i | 0 <= i < n :: Decodes(decode, ps[i])) && (n < |ps| ==> !Decodes(decode, ps[n]))
    ensures var d := DecodeAll(decode, ps);
      && |d.events| == n && (forall i | 0 <= i < n :: Good(d.events[i]) == decode(Join(Texts(ps[i]))))
      && d.end == if n == |ps| then Open([]) else if decode(Join(Texts(ps[n]))).Bad? then ProtocolError else Escaped
  {
    if n > 0 {
      assert Decodes(decode, ps[0]);
      FirstBadFrameEnds(decode, ps[1..], n - 1);
    }
  }

  // -- A connection cut anywhere --

  /** How many whole frames the first `k` printed lines hold. */
  function WholeFrames(ps: seq<Payload>, k: nat): nat
    ensures WholeFrames(ps, k) <= |ps|
  {
    if ps == [] || k < |PrintFrame(ps[0])| then 0 else 1 + WholeFrames(ps[1..], k - |PrintFrame(ps[0])|)
  }

  /** However many lines arrive before the connection is cut, the events are those of the whole
      frames among them; a frame cut in the middle yields nothing. */
  lemma {:induction false} CutAnywhere<E>(decode: string -> Decoded<E>, ps: seq<Payload>, k: nat)
    requires k <= |Print(ps)| && forall i | 0 <= i < |ps| :: WellFormed(ps[i])
    ensures Parse(decode, Print(ps)[..k]).events == DecodeAll(decode, ps[..WholeFrames(ps, k)]).events
    decreases |ps|
  {
    if ps != [] {
      var frame, rest := PrintFrame(ps[0]), Print(ps[1..]);
      if k < |frame| {
        assert (frame + rest)[..k] == PrintLines(ps[0])[..k];
        ParseLinesOf(decode, [], ps[0]);
        UnterminatedYieldsNothing(decode, [], PrintLines(ps[0])[..k]);
      } else {
        assert (frame + rest)[..k] == frame + rest[..k - |frame|];
        CutAnywhere(decode, ps[1..], k - |frame|);
        FrameThen(decode, ps, WholeFrames(ps[1..], k - |frame|), rest[..k - |frame|]);
      }
    }
  }

  /** A whole frame, and then lines that yield the events of the next `j` frames. */
  lemma FrameThen<E>(decode: string -> Decoded<E>, ps: seq<Payload>, j: nat, lines: seq<string>)
    requires ps != [] && WellFormed(ps[0]) && j <= |ps[1..]|
    requires Parse(decode, lines).events == DecodeAll(decode, ps[1..][..j]).events
    ensures Parse(decode, PrintFrame(ps[0]) + lines).events == DecodeAll(decode, ps[..j + 1]).events
  {
    assert ps[..j + 1][0] == ps[0] && ps[..j + 1][1..] == ps[1..][..j];
    ParseFrame(decode, ps[0]);
    ParseAppend(decode, [], PrintFrame(ps[0]), lines);
    DecodeOne(decode, ps[0]);
  }

  function PrintEach(frameOf: int -> Payload, seqNos: seq<int>): seq<Payload> {
    if seqNos == [] then [] else [frameOf(seqNos[0])] + PrintEach(frameOf, seqNos[1..])
  }

  /** A server that prints one frame for each number and is cut after any number of lines delivers a
      beginning of those numbers, which is what the stream loop relies on. */
  lemma CutLogIsPrefix(decode: string -> Decoded<int>, frameOf: int -> Payload, seqNos: seq<int>, k: nat)
    requires forall i | 0 <= i < |seqNos| ::
      WellFormed(frameOf(seqNos[i])) && decode(Join(Texts(frameOf(seqNos[i])))) == Good(seqNos[i])
    requires k <= |Print(PrintEach(frameOf, seqNos))|
    ensures Parse(decode, Print(PrintEach(frameOf, seqNos))[..k]).events <= seqNos
  {
    var ps := PrintEach(frameOf, seqNos);
    PrintEachAt(frameOf, seqNos);
    CutAnywhere(decode, ps, k);
    var j := WholeFrames(ps, k);
    FirstBadFrameEnds(decode, ps[..j], j);
    var events := Parse(decode, Print(ps)[..k]).events;
    assert forall i | 0 <= i < j :: Good(events[i]) == decode(Join(Texts(ps[..j][i]))) == Good(seqNos[i]);
  }

  lemma {:induction false} PrintEachAt(frameOf: int -> Payload, seqNos: seq<int>)
    ensures |PrintEach(frameOf, seqNos)| == |seqNos|
    ensures forall i | 0 <= i < |seqNos| :: PrintEach(frameOf, seqNos)[i] == frameOf(seqNos[i])
  {
    if seqNos != [] {
      PrintEachAt(frameOf, seqNos[1..]);
    }
  }
}
