/** One chat request through src/proxy.py: the loop over routing candidates in `chat_completions`, and `_relay_stream`,
    which forwards a provider's events to the client. What providers do is an arbitrary script; whether the client is
    still there is asked a number of times, and once the answer is no it stays no. */
module Proxy {
  import opened Sequences

  datatype Category = RateLimited | ProviderUnavailable | InvalidRequest | AuthError | ContextExceeded

  datatype ProviderError = ProviderError(category: Category, retryable: bool, statusCode: Option<int>)

  /** `ProviderRetryableError(..., category="PROVIDER_UNAVAILABLE")`, the form every unexpected failure is given. */
  const UNAVAILABLE := ProviderError(ProviderUnavailable, true, None)

  // ---------------------------------------------------------------------------------------------
  // Events
  // ---------------------------------------------------------------------------------------------

  /** An event as received: its length in bytes and its text. */
  datatype Event = Event(bytes: nat, text: string)

  /** A field of an error object. `Whole` is an integer, `Null` is null or a missing key, `Other` is anything else;
      `printable` says that `str` does not raise on it. */
  datatype Field = Null | Whole(n: int) | Text(s: string) | Other(printable: bool)

  datatype ErrorObject = ErrorObject(message: Field, code: Field, statusCode: Field)

  /** What `json.loads` makes of the data of an event. `Undecodable` is a `JSONDecodeError` and `Unloadable` any other
      exception; `Dict` is an object that is not empty, with the object under its key "error"; `Truthy` is any other
      value that tests true, such as a number or a list. */
  datatype Json = Undecodable | Unloadable | Falsy | Dict(error: Option<ErrorObject>) | Truthy

  /** Characters for which `isdigit` holds: those `int` reads, and others, such as superscripts, that it refuses. */
  datatype DigitKind = Decimal(value: nat) | OtherDigit | NoDigit

  /** The foreign calls an event goes through. */
  datatype Decoder = Decoder(
    loads: string -> Json,
    digit: char -> DigitKind,
    categorize: (Option<int>, ErrorObject) -> (Category, bool))

  datatype Parsed = Nothing | DoneMarker | Failed | Payload(json: Json)

  const GATEWAY_DONE := Event(14, "data: [DONE]\n\n")

  predicate IsLineBreak(c: char) {
    '\n' <= c <= '\r' || '\U{001c}' <= c <= '\U{001e}' || c == '\U{0085}' || c == '\U{2028}' || c == '\U{2029}'
  }

  predicate IsSpace(c: char) {
    || IsLineBreak(c) || c == '\t' || c == '\U{001f}' || c == ' ' || c == '\U{00a0}' || c == '\U{1680}'
    || '\U{2000}' <= c <= '\U{200a}' || c == '\U{202f}' || c == '\U{205f}' || c == '\U{3000}'
  }

  /** `str.splitlines`, up to empty lines, which no caller looks at. */
  function Lines(text: string): seq<string> {
    SplitOn(Unified(text), '\n')
  }

  function Unified(text: string): (u: string)
    ensures |u| == |text|
    ensures forall i :: 0 <= i < |text| ==> u[i] == if IsLineBreak(text[i]) then '\n' else text[i]
  {
    seq(|text|, i requires 0 <= i < |text| => if IsLineBreak(text[i]) then '\n' else text[i])
  }

  lemma FirstLine(line: string, rest: string)
    requires forall c :: c in line ==> !IsLineBreak(c)
    ensures Lines(line + ['\n'] + rest) != [] && Lines(line + ['\n'] + rest)[0] == line
  {
    var text := line + ['\n'] + rest;
    assert Unified(text)[..|line|] == line;
    SplitFirst(Unified(text), |line|, '\n');
  }

  function Strip(s: string): string {
    if s == [] then s
    else if IsSpace(s[0]) then Strip(s[1..])
    else if IsSpace(Last(s)) then Strip(Front(s))
    else s
  }

  /** `_parse_stream_event`: only the first data line counts. */
  function ParseLines(lines: seq<string>, decode: Decoder): Parsed {
    if lines == [] then Nothing
    else if !("data: " <= lines[0]) then ParseLines(lines[1..], decode)
    else if Strip(lines[0][6..]) == "[DONE]" then DoneMarker
    else match decode.loads(Strip(lines[0][6..]))
      case Undecodable => Nothing
      case Unloadable => Failed
      case json => Payload(json)
  }

  function Parse(e: Event, decode: Decoder): Parsed {
    ParseLines(Lines(e.text), decode)
  }

  /** `_is_comment_event` */
  predicate IsCommentEvent(e: Event) {
    var lines := Lines(e.text);
    && (exists i :: 0 <= i < |lines| && Strip(lines[i]) != [])
    && (forall i :: 0 <= i < |lines| && Strip(lines[i]) != [] ==> Strip(lines[i])[0] == ':')
  }

  /** Where the text begins, spaces left aside. */
  function FirstInk(s: string): (i: nat)
    ensures i <= |s| && (i < |s| ==> !IsSpace(s[i])) && forall j :: 0 <= j < i ==> IsSpace(s[j])
  {
    if s == [] || !IsSpace(s[0]) then 0 else
      var i := FirstInk(s[1..]);
      assert forall j :: 0 < j <= i ==> s[j] == s[1..][j - 1];
      i + 1
  }

  /** A line that begins with a colon makes a comment event; neither a line of data nor a blank one does. */
  lemma CommentEvents(bytes: nat, line: string)
    requires forall c :: c in line ==> !IsLineBreak(c)
    ensures IsCommentEvent(Event(bytes, line + "\n\n")) <==> FirstInk(line) < |line| && line[FirstInk(line)] == ':'
  {
    hide Strip, FirstInk, Lines, IsSpace, IsLineBreak;
    LinesOfOne(line);
    StripBlank();
    StripStart(line);
    var lines := Lines(line + "\n\n");
    assert lines[0] == line && lines[1] == [] && lines[2] == [] && |lines| == 3;
  }

  lemma LinesOfOne(line: string)
    requires forall c :: c in line ==> !IsLineBreak(c)
    ensures Lines(line + "\n\n") == [line, [], []]
  {
    var text := line + "\n\n";
    assert Unified(text) == text;
    SplitFirst(text, |line|, '\n');
    assert text[|line| + 1..] == "\n";
    SplitFirst("\n", 0, '\n');
    assert "\n"[..0] == "" && "\n"[1..] == "";
    SplitNone("", '\n');
  }

  lemma StripBlank()
    ensures Strip("") == ""
  {
  }

  /** Stripping leaves nothing of blank text, and otherwise begins with the first character that is no space. */
  lemma {:induction false} StripStart(s: string)
    ensures Strip(s) == [] <==> FirstInk(s) == |s|
    ensures Strip(s) != [] ==> Strip(s)[0] == s[FirstInk(s)]
    decreases |s|
  {
    hide IsSpace;
    if s != [] {
      if IsSpace(s[0]) {
        StripStart(s[1..]);
      } else if IsSpace(Last(s)) {
        StripStart(Front(s));
        assert Front(s)[0] == s[0];
      }
    }
  }

  predicate IsDone(e: Event, decode: Decoder) {
    Parse(e, decode).DoneMarker?
  }

  // ---------------------------------------------------------------------------------------------
  // The error an event carries
  // ---------------------------------------------------------------------------------------------

  /** `int` refuses longer strings of digits. */
  const MAX_INT_DIGITS := 4300

  /** `str.isdigit` */
  predicate IsDigits(s: string, digit: char -> DigitKind) {
    s != [] && forall c :: c in s ==> digit(c) != NoDigit
  }

  /** `int` on a string of digits; `None` is a `ValueError`. */
  function IntOf(s: string, digit: char -> DigitKind): (n: Option<nat>)
    requires IsDigits(s, digit)
    ensures n.Some? <==> |s| <= MAX_INT_DIGITS && forall c :: c in s ==> digit(c).Decimal?
  {
    if |s| > MAX_INT_DIGITS || !digit(Last(s)).Decimal? then None
    else if |s| == 1 then Some(digit(s[0]).value)
    else
      var high := IntOf(Front(s), digit);
      assert s == Front(s) + [Last(s)];
      if high.None? then None else Some(10 * high.value + digit(Last(s)).value)
  }

  /** Decimal notation. */
  function Numeral(n: nat): (s: string)
    ensures s != [] && forall c :: c in s ==> '0' <= c <= '9'
  {
    var last := ['0' + (n % 10) as char];
    if n < 10 then last else Numeral(n / 10) + last
  }

  ghost predicate ReadsAscii(digit: char -> DigitKind) {
    forall c :: '0' <= c <= '9' ==> digit(c) == Decimal((c - '0') as nat)
  }

  /** `int` reads what `str` writes. */
  lemma {:induction false} IntOfNumeral(n: nat, digit: char -> DigitKind)
    requires ReadsAscii(digit) && |Numeral(n)| <= MAX_INT_DIGITS
    ensures IsDigits(Numeral(n), digit) && IntOf(Numeral(n), digit) == Some(n)
  {
    var last := '0' + (n % 10) as char;
    assert digit(last) == Decimal(n % 10);
    if n >= 10 {
      IntOfNumeral(n / 10, digit);
      assert Front(Numeral(n / 10) + [last]) == Numeral(n / 10);
    }
  }

  /** What reading the error out of a payload comes to. */
  datatype Extraction = NoError | Found(error: ProviderError) | Raising

  predicate Printable(f: Field) {
    f.Other? ==> f.printable
  }

  /** The string whose value becomes the status code, if any does. */
  function StatusText(o: ErrorObject, digit: char -> DigitKind): (s: Option<string>)
    ensures s.Some? ==> IsDigits(s.value, digit)
  {
    if o.statusCode.Whole? then None
    else if o.statusCode.Text? && IsDigits(o.statusCode.s, digit) then Some(o.statusCode.s)
    else if o.code.Text? && IsDigits(o.code.s, digit) then Some(o.code.s)
    else None
  }

  /** The error object makes `provider_error_from_error_payload` raise: a text that cannot be printed, or a string of
      digits that becomes the status code and is too long for `int` or holds a digit `int` does not read. */
  predicate Unreadable(o: ErrorObject, digit: char -> DigitKind) {
    || !Printable(o.message) || !Printable(o.code)
    || (var s := StatusText(o, digit);
        s.Some? && (|s.value| > MAX_INT_DIGITS || exists c :: c in s.value && digit(c) == OtherDigit))
  }

  /** `provider_error_from_error_payload` on an error object */
  function ErrorFrom(o: ErrorObject, decode: Decoder): (x: Extraction)
    ensures !x.NoError?
    ensures x.Raising? <==> Unreadable(o, decode.digit)
  {
    if !Printable(o.message) || !Printable(o.code) then Raising else
      var text := StatusText(o, decode.digit);
      var read := if text.Some? then IntOf(text.value, decode.digit) else None;
      if text.Some? && read.None? then Raising else
        var status: Option<int> :=
          if o.statusCode.Whole? then Some(o.statusCode.n)
          else if text.Some? then Some(read.value)
          else if o.code.Whole? then Some(o.code.n)
          else None;
        var (category, retryable) := decode.categorize(status, o);
        Found(ProviderError(category, retryable, status))
  }

  function Extract(parsed: Parsed, decode: Decoder): Extraction {
    match parsed
    case Failed => Raising
    case Payload(Truthy) => Raising
    case Payload(Dict(Some(o))) => ErrorFrom(o, decode)
    case _ => NoError
  }

  /** Parsing the event or looking for an error in it raises; `payload.get(...)` does on a payload that is no dict. */
  predicate Raises(e: Event, decode: Decoder) {
    Extract(Parse(e, decode), decode).Raising?
  }

  function ErrorIn(e: Event, decode: Decoder): Option<ProviderError> {
    match Extract(Parse(e, decode), decode)
    case Found(error) => Some(error)
    case _ => None
  }

  lemma GatewayDoneIsDone(decode: Decoder)
    ensures IsDone(GATEWAY_DONE, decode)
  {
    hide Lines;
    var line: string := "data: [DONE]";
    assert GATEWAY_DONE.text == line + ['\n'] + "\n";
    FirstLine(line, "\n");
    assert line[..6] == "data: " && line[6..] == "[DONE]";
  }

  // ---------------------------------------------------------------------------------------------
  // The relay
  // ---------------------------------------------------------------------------------------------

  /** What the next `anext` does; a script that has run out stands for `StopAsyncIteration`. */
  datatype Pull = Next(e: Event) | RaisesProviderError(error: ProviderError) | TimesOut | Breaks

  /** `gone(i)` is the answer to the i-th `is_disconnected`. */
  datatype Setting = Setting(decode: Decoder, maxEventBytes: nat, gone: nat -> bool)

  ghost predicate StaysGone(gone: nat -> bool) {
    forall i: nat, j: nat :: i <= j && gone(i) ==> gone(j)
  }

  /** The i-th event after the first goes through to the client. */
  predicate Passes(cfg: Setting, script: seq<Pull>, i: nat) {
    && i < |script| && script[i].Next?
    && script[i].e.bytes <= cfg.maxEventBytes
    && !cfg.gone(i + 1)
    && !Raises(script[i].e, cfg.decode)
  }

  function Through(cfg: Setting, script: seq<Pull>, from: nat): (n: nat)
    requires from <= |script|
    ensures from <= n <= |script| && !Passes(cfg, script, n)
    ensures forall i :: from <= i < n ==> Passes(cfg, script, i)
    decreases |script| - from
  {
    if Passes(cfg, script, from) then Through(cfg, script, from + 1) else from
  }

  datatype Ending = StreamEnded | ClientLeft | Broken(error: ProviderError)

  /** Why the loop stops at the n-th pull. */
  function EndingAt(cfg: Setting, script: seq<Pull>, n: nat): Ending {
    if n >= |script| then StreamEnded
    else match script[n]
      case Next(e) =>
        if e.bytes <= cfg.maxEventBytes && cfg.gone(n + 1) then ClientLeft else Broken(UNAVAILABLE)
      case RaisesProviderError(error) => Broken(error)
      case _ => Broken(UNAVAILABLE)
  }

  function EventsOf(script: seq<Pull>): seq<Event> {
    if script == [] || !script[0].Next? then [] else [script[0].e] + EventsOf(script[1..])
  }

  /** The error that stands after these events: the last one any of them carried. */
  function StandingError(events: seq<Event>, decode: Decoder): Option<ProviderError> {
    if events == [] then None
    else if ErrorIn(Last(events), decode).Some? then ErrorIn(Last(events), decode)
    else StandingError(Front(events), decode)
  }

  predicate AnyDone(events: seq<Event>, decode: Decoder) {
    exists i :: 0 <= i < |events| && IsDone(events[i], decode)
  }

  datatype Record = MarkSuccess | LogSuccess | MarkFailure | LogFailure(error: ProviderError)

  /** What the client got, what was recorded, and whether an exception left the generator before its `try`. */
  datatype Relayed = Relayed(output: seq<Event>, records: seq<Record>, escaped: bool)

  function FailureRecords(error: ProviderError): seq<Record> {
    (if error.retryable then [MarkFailure] else []) + [LogFailure(error)]
  }

  /** The events read by the time the loop ends: the first one and those that went through. */
  function Handled(cfg: Setting, first: Event, script: seq<Pull>): seq<Event> {
    [first] + EventsOf(script[..Through(cfg, script, 0)])
  }

  function FinalError(cfg: Setting, first: Event, script: seq<Pull>): Option<ProviderError> {
    var ending := EndingAt(cfg, script, Through(cfg, script, 0));
    if ending.Broken? then Some(ending.error) else StandingError(Handled(cfg, first, script), cfg.decode)
  }

  /** The client is found gone when the stream is over. */
  predicate LeftEarly(cfg: Setting, script: seq<Pull>) {
    cfg.gone(Through(cfg, script, 0) + 1)
  }

  function Relay(cfg: Setting, first: Event, script: seq<Pull>): Relayed {
    if Raises(first, cfg.decode) then Relayed([], [], true) else
      var handled := Handled(cfg, first, script);
      var forwarded := if cfg.gone(0) then [] else handled;
      match FinalError(cfg, first, script)
      case Some(error) => Relayed(forwarded, FailureRecords(error), false)
      case None =>
        if LeftEarly(cfg, script) then Relayed(forwarded, [], false)
        else
          var marker := if AnyDone(handled, cfg.decode) then [] else [GATEWAY_DONE];
          Relayed(forwarded + marker, [MarkSuccess, LogSuccess], false)
  }

  lemma {:induction false} EventsOfPrefix(script: seq<Pull>, n: nat)
    requires n < |script| && forall i :: 0 <= i <= n ==> script[i].Next?
    ensures EventsOf(script[..n + 1]) == EventsOf(script[..n]) + [script[n].e]
  {
    if n == 0 {
      assert script[..1] == [script[0]] && script[..0] == [];
    } else {
      EventsOfPrefix(script[1..], n - 1);
      assert script[..n + 1][1..] == script[1..][..n] && script[..n][1..] == script[1..][..n - 1];
    }
  }

  /** The `try` block: forwards events until the stream, the client or an exception ends it. */
  method ForwardEvents(cfg: Setting, first: Event, script: seq<Pull>)
    returns (output: seq<Event>, doneSeen: bool, streamError: Option<ProviderError>, checks: nat)
    requires StaysGone(cfg.gone) && !Raises(first, cfg.decode)
    ensures output == Forwarded(cfg, first, script)
    ensures streamError == FinalError(cfg, first, script)
    ensures streamError.None? ==>
      doneSeen == AnyDone(Handled(cfg, first, script), cfg.decode) && cfg.gone(checks) == LeftEarly(cfg, script)
  {
    hide Parse, Extract, EventsOf, StandingError, AnyDone, StaysGone;
    var parsed := Parse(first, cfg.decode);
    var found := Extract(parsed, cfg.decode);
    doneSeen := parsed.DoneMarker?;
    streamError := if found.Found? then Some(found.error) else None;
    output := if cfg.gone(0) then [] else [first];
    checks := 1;
    var n := 0;
    ghost var handled := [first];
    NoEvents(script, first, cfg.decode);
    while n < |script|
      invariant 0 <= n <= |script| && checks == n + 1
      invariant forall i :: 0 <= i < n ==> Passes(cfg, script, i)
      invariant handled == [first] + EventsOf(script[..n])
      invariant output == if cfg.gone(0) then [] else handled
      invariant doneSeen == AnyDone(handled, cfg.decode)
      invariant streamError == StandingError(handled, cfg.decode)
    {
      if !script[n].Next? {
        streamError := Some(if script[n].RaisesProviderError? then script[n].error else UNAVAILABLE);
        break;
      }
      var e := script[n].e;
      if e.bytes > cfg.maxEventBytes {
        streamError := Some(UNAVAILABLE);
        break;
      }
      checks := checks + 1;
      if cfg.gone(checks - 1) {
        break;
      }
      parsed := Parse(e, cfg.decode);
      doneSeen := doneSeen || parsed.DoneMarker?;
      found := Extract(parsed, cfg.decode);
      if found.Raising? {
        streamError := Some(UNAVAILABLE);
        break;
      }
      if found.Found? {
        streamError := Some(found.error);
      }
      OnceGone(cfg.gone, n + 1);
      EventsThrough(cfg, script, n);
      OneMoreEvent(handled, e, cfg.decode);
      handled := handled + [e];
      output := output + [e];
      n := n + 1;
    }
    ThroughIs(cfg, script, n);
    OnceGone(cfg.gone, n + 1);
  }

  method RelayStream(cfg: Setting, first: Event, script: seq<Pull>)
    returns (output: seq<Event>, records: seq<Record>, escaped: bool)
    requires StaysGone(cfg.gone)
    ensures Relayed(output, records, escaped) == Relay(cfg, first, script)
  {
    hide Handled, FinalError, LeftEarly, AnyDone, Parse, Extract;
    records := [];
    if Raises(first, cfg.decode) {
      return [], [], true;
    }
    var doneSeen, streamError, checks;
    output, doneSeen, streamError, checks := ForwardEvents(cfg, first, script);
    escaped := false;
    if streamError.None? && !cfg.gone(checks) {
      if !doneSeen {
        output := output + [GATEWAY_DONE];
      }
      records := [MarkSuccess, LogSuccess];
    } else if streamError.Some? {
      if streamError.value.retryable {
        records := [MarkFailure];
      }
      records := records + [LogFailure(streamError.value)];
    }
  }

  lemma EventsThrough(cfg: Setting, script: seq<Pull>, n: nat)
    requires Passes(cfg, script, n) && forall i :: 0 <= i < n ==> Passes(cfg, script, i)
    ensures EventsOf(script[..n + 1]) == EventsOf(script[..n]) + [script[n].e]
  {
    forall i | 0 <= i <= n
      ensures script[i].Next?
    {
      assert Passes(cfg, script, i);
    }
    EventsOfPrefix(script, n);
  }

  lemma OnceGone(gone: nat -> bool, i: nat)
    requires StaysGone(gone)
    ensures gone(0) ==> gone(i)
    ensures gone(i) ==> gone(i + 1)
  {
  }

  lemma NoEvents(script: seq<Pull>, first: Event, decode: Decoder)
    ensures EventsOf(script[..0]) == []
    ensures StandingError([first], decode) == ErrorIn(first, decode)
    ensures AnyDone([first], decode) == IsDone(first, decode)
  {
    assert Front([first]) == [];
  }

  lemma OneMoreEvent(events: seq<Event>, e: Event, decode: Decoder)
    ensures StandingError(events + [e], decode) ==
            if ErrorIn(e, decode).Some? then ErrorIn(e, decode) else StandingError(events, decode)
    ensures AnyDone(events + [e], decode) == (AnyDone(events, decode) || IsDone(e, decode))
  {
    assert Front(events + [e]) == events;
    if AnyDone(events, decode) {
      var i :| 0 <= i < |events| && IsDone(events[i], decode);
      assert (events + [e])[i] == events[i];
    }
    if IsDone(e, decode) {
      assert (events + [e])[|events|] == e;
    }
  }

  lemma ThroughIs(cfg: Setting, script: seq<Pull>, n: nat)
    requires n <= |script| && !Passes(cfg, script, n) && forall i :: 0 <= i < n ==> Passes(cfg, script, i)
    ensures Through(cfg, script, 0) == n
  {
    var m := Through(cfg, script, 0);
    assert !(m < n) && !(n < m);
  }

  // ---------------------------------------------------------------------------------------------
  // What the relay guarantees
  // ---------------------------------------------------------------------------------------------

  lemma {:induction false} EventsOfGrow(script: seq<Pull>, n: nat)
    requires n <= |script|
    ensures EventsOf(script[..n]) <= EventsOf(script)
  {
    if n > 0 && script[0].Next? {
      EventsOfGrow(script[1..], n - 1);
      assert script[..n][1..] == script[1..][..n - 1];
    }
  }

  /** The output without the marker the gateway may have added. */
  function Forwarded(cfg: Setting, first: Event, script: seq<Pull>): seq<Event> {
    if cfg.gone(0) || Raises(first, cfg.decode) then [] else Handled(cfg, first, script)
  }

  /** The client gets a prefix of the provider's events and at most one marker made by the gateway, which comes last,
      and comes exactly when the run succeeded and no event forwarded was a marker. */
  lemma OutputIsPrefixPlusMarker(cfg: Setting, first: Event, script: seq<Pull>)
    requires StaysGone(cfg.gone)
    ensures
      var r, forwarded := Relay(cfg, first, script), Forwarded(cfg, first, script);
      var added := LogSuccess in r.records && !AnyDone(forwarded, cfg.decode);
      && forwarded <= [first] + EventsOf(script)
      && r.output == forwarded + if added then [GATEWAY_DONE] else []
  {
    hide Parse, EventsOf, StandingError, AnyDone, Handled;
    var n := Through(cfg, script, 0);
    OnceGone(cfg.gone, n + 1);
    assert Handled(cfg, first, script) <= [first] + EventsOf(script) by {
      HandledIsPrefix(cfg, first, script);
    }
  }

  lemma HandledIsPrefix(cfg: Setting, first: Event, script: seq<Pull>)
    ensures Handled(cfg, first, script) <= [first] + EventsOf(script)
  {
    hide EventsOf;
    EventsOfGrow(script, Through(cfg, script, 0));
  }

  /** A run recorded as a success ends, for the client, with a [DONE] somewhere in what it received. */
  lemma SuccessHasDone(cfg: Setting, first: Event, script: seq<Pull>)
    requires StaysGone(cfg.gone) && LogSuccess in Relay(cfg, first, script).records
    ensures AnyDone(Relay(cfg, first, script).output, cfg.decode)
  {
    hide Parse, EventsOf, StandingError, AnyDone, Handled;
    OutputIsPrefixPlusMarker(cfg, first, script);
    OneMoreEvent(Forwarded(cfg, first, script), GATEWAY_DONE, cfg.decode);
    GatewayDoneIsDone(cfg.decode);
    assert Relay(cfg, first, script).output == Forwarded(cfg, first, script) ||
           Relay(cfg, first, script).output == Forwarded(cfg, first, script) + [GATEWAY_DONE];
    assert Forwarded(cfg, first, script) + [] == Forwarded(cfg, first, script);
  }

  predicate IsFailureRecord(r: Record) {
    r.MarkFailure? || r.LogFailure?
  }

  predicate IsSuccessRecord(r: Record) {
    r.MarkSuccess? || r.LogSuccess?
  }

  /** Success and failure are never both recorded; a failure is logged once and held against the model exactly when
      it is retryable; a success is logged and credited once. */
  lemma OneVerdict(cfg: Setting, first: Event, script: seq<Pull>)
    ensures
      var r := Relay(cfg, first, script).records;
      && !((exists a :: a in r && IsSuccessRecord(a)) && (exists b :: b in r && IsFailureRecord(b)))
      && (forall i :: 0 <= i < |r| && r[i].LogFailure? ==> (MarkFailure in r <==> r[i].error.retryable))
      && (forall i, j :: 0 <= i < j < |r| ==> r[i] != r[j] && !(r[i].LogFailure? && r[j].LogFailure?))
      && (MarkSuccess in r <==> LogSuccess in r)
  {
    hide Handled, AnyDone, StandingError, EndingAt, Parse, Raises, LeftEarly, FinalError;
  }

  // ---------------------------------------------------------------------------------------------
  // What is recorded, from the script alone
  // ---------------------------------------------------------------------------------------------

  /** The i-th pull after the first event brings an event that goes on to the client. */
  predicate Forwards(cfg: Setting, script: seq<Pull>, i: nat)
    requires i < |script|
  {
    && script[i].Next?
    && script[i].e.bytes <= cfg.maxEventBytes
    && !cfg.gone(i + 1)
    && !Raises(script[i].e, cfg.decode)
  }

  /** The first `n` pulls bring events that go on to the client, and the next does not, if there is one. */
  ghost predicate StopsAfter(cfg: Setting, script: seq<Pull>, n: nat) {
    && n <= |script|
    && (forall i :: 0 <= i < n ==> Forwards(cfg, script, i))
    && (n < |script| ==> !Forwards(cfg, script, n))
  }

  /** The events read before the loop ended: number 0 is the first one. */
  function ReadEvent(first: Event, script: seq<Pull>, j: nat): Event {
    if 0 < j <= |script| && script[j - 1].Next? then script[j - 1].e else first
  }

  /** The error that the pull after the last event forwarded raises, or the last error that the forwarded events
      carry if the stream ended or the client left. */
  ghost predicate FailsWith(cfg: Setting, first: Event, script: seq<Pull>, n: nat, error: ProviderError)
    requires StopsAfter(cfg, script, n)
  {
    if n == |script| || (script[n].Next? && script[n].e.bytes <= cfg.maxEventBytes && cfg.gone(n + 1)) then
      exists j: nat :: j <= n && ErrorIn(ReadEvent(first, script, j), cfg.decode) == Some(error) &&
        forall l: nat :: j < l <= n ==> ErrorIn(ReadEvent(first, script, l), cfg.decode) == None
    else if script[n].RaisesProviderError? then error == script[n].error
    else error == ProviderError(ProviderUnavailable, true, None)
  }

  lemma StopsAfterThrough(cfg: Setting, script: seq<Pull>, n: nat)
    requires StopsAfter(cfg, script, n)
    ensures Through(cfg, script, 0) == n
  {
    hide Raises;
    forall i | 0 <= i < n
      ensures Passes(cfg, script, i)
    {
      assert Forwards(cfg, script, i);
    }
    ThroughIs(cfg, script, n);
  }

  lemma ThroughStopsAfter(cfg: Setting, script: seq<Pull>)
    ensures StopsAfter(cfg, script, Through(cfg, script, 0))
  {
    hide Raises;
    var n := Through(cfg, script, 0);
    forall i | 0 <= i < n
      ensures Forwards(cfg, script, i)
    {
      assert Passes(cfg, script, i);
    }
  }

  lemma {:induction false} EventsOfNth(script: seq<Pull>, n: nat)
    requires n <= |script| && forall i :: 0 <= i < n ==> script[i].Next?
    ensures |EventsOf(script[..n])| == n && forall i :: 0 <= i < n ==> EventsOf(script[..n])[i] == script[i].e
  {
    if n > 0 {
      EventsOfNth(script, n - 1);
      EventsOfPrefix(script, n - 1);
    }
  }

  lemma HandledAre(cfg: Setting, first: Event, script: seq<Pull>, n: nat)
    requires StopsAfter(cfg, script, n)
    ensures |Handled(cfg, first, script)| == n + 1
    ensures forall j :: 0 <= j <= n ==> Handled(cfg, first, script)[j] == ReadEvent(first, script, j)
  {
    hide EventsOf;
    StopsAfterThrough(cfg, script, n);
    forall i | 0 <= i < n
      ensures script[i].Next?
    {
      assert Forwards(cfg, script, i);
    }
    EventsOfNth(script, n);
  }

  lemma {:induction false} StandingErrorIs(events: seq<Event>, decode: Decoder, error: ProviderError)
    ensures StandingError(events, decode) == Some(error) <==>
            exists j :: 0 <= j < |events| && ErrorIn(events[j], decode) == Some(error) &&
              forall l :: j < l < |events| ==> ErrorIn(events[l], decode) == None
    ensures StandingError(events, decode) == None <==>
            forall j :: 0 <= j < |events| ==> ErrorIn(events[j], decode) == None
  {
    hide ErrorIn;
    if events != [] {
      StandingErrorIs(Front(events), decode, error);
      assert forall j :: 0 <= j < |events| - 1 ==> Front(events)[j] == events[j];
    }
  }

  lemma FinalErrorIs(cfg: Setting, first: Event, script: seq<Pull>, n: nat, error: ProviderError)
    requires StopsAfter(cfg, script, n)
    ensures FinalError(cfg, first, script) == Some(error) <==> FailsWith(cfg, first, script, n, error)
  {
    hide StandingError, Handled, ErrorIn, Raises;
    StopsAfterThrough(cfg, script, n);
    HandledAre(cfg, first, script, n);
    var events := Handled(cfg, first, script);
    StandingErrorIs(events, cfg.decode, error);
    if FailsWith(cfg, first, script, n, error) && EndingAt(cfg, script, n) in {StreamEnded, ClientLeft} {
      var j: nat :| j <= n && ErrorIn(ReadEvent(first, script, j), cfg.decode) == Some(error) &&
        forall l: nat :: j < l <= n ==> ErrorIn(ReadEvent(first, script, l), cfg.decode) == None;
      assert events[j] == ReadEvent(first, script, j);
    }
  }

  /** Exactly when a failure is recorded, and which: it is the only one, and counts against the model if it is
      retryable. */
  lemma FailureIff(cfg: Setting, first: Event, script: seq<Pull>, n: nat, error: ProviderError)
    requires StopsAfter(cfg, script, n) && !Raises(first, cfg.decode)
    ensures LogFailure(error) in Relay(cfg, first, script).records <==> FailsWith(cfg, first, script, n, error)
    ensures FailsWith(cfg, first, script, n, error) ==>
      Relay(cfg, first, script).records == (if error.retryable then [MarkFailure] else []) + [LogFailure(error)]
  {
    hide StandingError, Handled, ErrorIn, Raises, FinalError, FailsWith, StopsAfter, LeftEarly, AnyDone;
    FinalErrorIs(cfg, first, script, n, error);
  }

  /** Exactly when a success is recorded: every pull brings an event within the limit, none raises or carries an error,
      and the client is there to the end. */
  lemma SuccessIff(cfg: Setting, first: Event, script: seq<Pull>)
    requires StaysGone(cfg.gone)
    ensures
      var r := Relay(cfg, first, script).records;
      && (LogSuccess in r <==> r == [MarkSuccess, LogSuccess])
      && (LogSuccess in r <==>
          && !Raises(first, cfg.decode) && ErrorIn(first, cfg.decode) == None && !cfg.gone(|script| + 1)
          && forall i :: 0 <= i < |script| ==>
            && script[i].Next? && script[i].e.bytes <= cfg.maxEventBytes
            && !Raises(script[i].e, cfg.decode) && ErrorIn(script[i].e, cfg.decode) == None)
  {
    hide StandingError, Handled, ErrorIn, Raises, AnyDone;
    var n := Through(cfg, script, 0);
    ThroughStopsAfter(cfg, script);
    HandledAre(cfg, first, script, n);
    var events := Handled(cfg, first, script);
    StandingErrorIs(events, cfg.decode, UNAVAILABLE);
    if n == |script| {
      forall i | 0 <= i < n
        ensures Passes(cfg, script, i) && events[i + 1] == script[i].e
      {
        assert Passes(cfg, script, i);
      }
      assert events[0] == first;
      assert forall j :: 0 < j <= n ==> events[j] == script[j - 1].e;
    } else {
      assert !Passes(cfg, script, n);
      assert cfg.gone(n + 1) ==> cfg.gone(|script| + 1);
    }
  }

  /** What the client gets, event by event. */
  lemma OutputIs(cfg: Setting, first: Event, script: seq<Pull>, n: nat)
    requires StopsAfter(cfg, script, n) && !Raises(first, cfg.decode)
    ensures
      var output, success := Relay(cfg, first, script).output, LogSuccess in Relay(cfg, first, script).records;
      var forwarded := if cfg.gone(0) then 0 else n + 1;
      && forwarded <= |output| <= forwarded + (if success then 1 else 0)
      && (forall j :: 0 <= j < forwarded ==> output[j] == ReadEvent(first, script, j))
      && (success ==>
          (|output| == forwarded <==> exists j :: 0 <= j <= n && IsDone(ReadEvent(first, script, j), cfg.decode)))
  {
    hide StandingError, Handled, ErrorIn, Raises, FinalError, LeftEarly, StopsAfter;
    HandledAre(cfg, first, script, n);
  }

  /** Nothing at all is recorded in exactly two cases: the client left and no error had shown up, or reading the first
      event raises, which happens before the `try`. `EventMeans` says which events those are. */
  lemma NoRecordIff(cfg: Setting, first: Event, script: seq<Pull>)
    ensures Relay(cfg, first, script).records == [] <==>
            Raises(first, cfg.decode) || (FinalError(cfg, first, script).None? && LeftEarly(cfg, script))
  {
    hide Handled, AnyDone, StandingError, EndingAt, Parse;
  }

  /** Which JSON raises. */
  predicate Hostile(json: Json, digit: char -> DigitKind) {
    || json.Unloadable? || json.Truthy?
    || (json.Dict? && json.error.Some? && Unreadable(json.error.value, digit))
  }

  /** The status code read from an error object: the number under "status_code", else the digits there, else the number
      under "code", else the digits there, else nothing. */
  ghost predicate IsStatus(o: ErrorObject, digit: char -> DigitKind, status: Option<int>) {
    match (o.statusCode, o.code)
    case (Whole(n), _) => status == Some(n)
    case (Text(s), code) =>
      if IsDigits(s, digit) then status == IntOf(s, digit) else IsCodeStatus(code, digit, status)
    case (_, code) => IsCodeStatus(code, digit, status)
  }

  ghost predicate IsCodeStatus(code: Field, digit: char -> DigitKind, status: Option<int>) {
    match code
    case Whole(n) => status == Some(n)
    case Text(s) => if IsDigits(s, digit) then status == IntOf(s, digit) else status == None
    case _ => status == None
  }

  /** Which error an event carries: that of the error object under its first data line, categorized by its status. */
  ghost predicate Carries(o: ErrorObject, decode: Decoder, error: ProviderError) {
    && !Unreadable(o, decode.digit)
    && IsStatus(o, decode.digit, error.statusCode)
    && decode.categorize(error.statusCode, o) == (error.category, error.retryable)
  }

  lemma ErrorFromIs(o: ErrorObject, decode: Decoder, error: ProviderError)
    ensures ErrorFrom(o, decode) == Found(error) <==> Carries(o, decode, error)
  {
  }

  /** The first line of data, or the number of lines. */
  function FirstData(lines: seq<string>, from: nat): (k: nat)
    requires from <= |lines|
    ensures from <= k <= |lines| && (k < |lines| ==> "data: " <= lines[k])
    ensures forall j :: from <= j < k ==> !("data: " <= lines[j])
    decreases |lines| - from
  {
    if from < |lines| && !("data: " <= lines[from]) then FirstData(lines, from + 1) else from
  }

  lemma {:induction false} ParsesAs(lines: seq<string>, from: nat, decode: Decoder)
    requires from <= |lines|
    ensures
      var k, parsed := FirstData(lines, from), ParseLines(lines[from..], decode);
      if k == |lines| then parsed == Nothing else
        var data := Strip(lines[k][6..]);
        if data == "[DONE]" then parsed == DoneMarker
        else if decode.loads(data) == Undecodable then parsed == Nothing
        else if decode.loads(data) == Unloadable then parsed == Failed
        else parsed == Payload(decode.loads(data))
    decreases |lines| - from
  {
    hide Strip;
    if from < |lines| {
      assert lines[from..][0] == lines[from] && lines[from..][1..] == lines[from + 1..];
      if !("data: " <= lines[from]) {
        ParsesAs(lines, from + 1, decode);
      }
    }
  }

  /** What an event means to the relay. Only its first data line counts. It ends the stream when that is the marker;
      reading it raises exactly when the JSON cannot be loaded for another reason than its syntax, tests true without
      being an object, or is an object with an unreadable error; and it carries exactly the readable error in it. */
  lemma EventMeans(e: Event, decode: Decoder, error: ProviderError)
    ensures
      var lines := Lines(e.text);
      var k := FirstData(lines, 0);
      if k == |lines| then !IsDone(e, decode) && !Raises(e, decode) && ErrorIn(e, decode) == None else
        var data := Strip(lines[k][6..]);
        if data == "[DONE]" then IsDone(e, decode) && !Raises(e, decode) && ErrorIn(e, decode) == None
        else
          && !IsDone(e, decode)
          && (Raises(e, decode) <==> Hostile(decode.loads(data), decode.digit))
          && (ErrorIn(e, decode) == Some(error) <==>
              && decode.loads(data).Dict? && decode.loads(data).error.Some?
              && Carries(decode.loads(data).error.value, decode, error))
  {
    hide Strip, Lines, ErrorFrom, Carries, StatusText, IsDigits;
    var lines := Lines(e.text);
    ParsesAs(lines, 0, decode);
    assert lines[0..] == lines;
    var k := FirstData(lines, 0);
    if k < |lines| {
      var json := decode.loads(Strip(lines[k][6..]));
      if json.Dict? && json.error.Some? {
        ErrorFromIs(json.error.value, decode, error);
      }
    }
  }

  /** One event made of one data line. */
  function DataEvent(bytes: nat, data: string): Event {
    Event(bytes, "data: " + data + "\n\n")
  }

  lemma ParseOfDataEvent(bytes: nat, data: string, decode: Decoder)
    requires (forall c :: c in data ==> !IsLineBreak(c)) && Strip(data) == data != "[DONE]"
    ensures Raises(DataEvent(bytes, data), decode) <==> Hostile(decode.loads(data), decode.digit)
  {
    hide Lines, Strip, StatusText, IsDigits;
    var line := "data: " + data;
    assert DataEvent(bytes, data).text == line + ['\n'] + "\n";
    FirstLine(line, "\n");
    assert line[..6] == "data: " && line[6..] == data;
  }

  /** Such first events exist, and with one the client gets nothing and the provider's failure goes unrecorded: a number
      instead of an object. */
  lemma FirstEventCanEscape(cfg: Setting, script: seq<Pull>)
    requires cfg.decode.loads("5") == Truthy
    ensures Relay(cfg, DataEvent(9, "5"), script) == Relayed([], [], true)
  {
    hide Parse, Extract;
    ParseOfDataEvent(9, "5", cfg.decode);
  }

  lemma NothingToStrip(s: string)
    requires s != [] && !IsSpace(s[0]) && !IsSpace(Last(s))
    ensures Strip(s) == s
  {
  }

  const SUPERSCRIPT_CODE: string := "{\"error\":{\"code\":\"\U{00B2}\"}}"

  /** The same with an object: an error whose code is a superscript two, a digit that `int` refuses. */
  lemma ErrorObjectCanEscape(cfg: Setting, script: seq<Pull>)
    requires cfg.decode.loads(SUPERSCRIPT_CODE) == Dict(Some(ErrorObject(Null, Text("\U{00B2}"), Null)))
    requires cfg.decode.digit('\U{00B2}') == OtherDigit
    ensures Relay(cfg, DataEvent(31, SUPERSCRIPT_CODE), script) == Relayed([], [], true)
  {
    hide Parse, Extract, Strip;
    var data := SUPERSCRIPT_CODE;
    NothingToStrip(data);
    assert data[0] == '{';
    var o := ErrorObject(Null, Text("\U{00B2}"), Null);
    assert o.code.s[0] == '\U{00B2}' && StatusText(o, cfg.decode.digit) == Some(o.code.s);
    ParseOfDataEvent(31, data, cfg.decode);
  }

  // ---------------------------------------------------------------------------------------------
  // The loop over candidates
  // ---------------------------------------------------------------------------------------------

  /** What the provider of a candidate does with the request. `Unroutable` is a provider the registry does not know. */
  datatype Behaviour = Unroutable | Answers | Refuses(error: ProviderError) | Crashes | Streams(script: seq<Pull>)

  datatype Verdict =
    | Escapes
    | Served
    | Opened(first: Event, rest: seq<Pull>)
    | Retry(error: ProviderError)
    | Fatal(error: ProviderError)

  function Refusal(error: ProviderError): Verdict {
    if error.retryable then Retry(error) else Fatal(error)
  }

  /** Leading comment events are read and dropped; the first other event opens the stream. */
  function Opening(script: seq<Pull>, max: nat): Verdict {
    if script == [] then Retry(UNAVAILABLE)
    else match script[0]
      case Next(e) =>
        if e.bytes > max then Retry(UNAVAILABLE)
        else if IsCommentEvent(e) then Opening(script[1..], max)
        else Opened(e, script[1..])
      case RaisesProviderError(error) => Refusal(error)
      case _ => Retry(UNAVAILABLE)
  }

  function VerdictOn(b: Behaviour, max: nat): Verdict {
    match b
    case Unroutable => Escapes
    case Answers => Served
    case Refuses(error) => Refusal(error)
    case Crashes => Retry(UNAVAILABLE)
    case Streams(script) => Opening(script, max)
  }

  predicate IsDropped(p: Pull, max: nat) {
    p.Next? && p.e.bytes <= max && IsCommentEvent(p.e)
  }

  /** The length of the run of comment events a stream begins with. */
  function LeadingComments(script: seq<Pull>, max: nat, from: nat): (k: nat)
    requires from <= |script|
    ensures from <= k <= |script| && (k < |script| ==> !IsDropped(script[k], max))
    ensures forall i :: from <= i < k ==> IsDropped(script[i], max)
    decreases |script| - from
  {
    if from < |script| && IsDropped(script[from], max) then LeadingComments(script, max, from + 1) else from
  }

  /** What the first pull that is no comment event decides. */
  lemma {:induction false} OpeningFrom(script: seq<Pull>, max: nat, from: nat)
    requires from <= |script|
    ensures
      var v, k := Opening(script[from..], max), LeadingComments(script, max, from);
      && (v.Opened? <==> k < |script| && script[k].Next? && script[k].e.bytes <= max)
      && (v.Opened? ==> v == Opened(script[k].e, script[k + 1..]))
      && (k < |script| && script[k].RaisesProviderError? ==> v == Refusal(script[k].error))
      && (!v.Opened? && !(k < |script| && script[k].RaisesProviderError?) ==> v == Retry(UNAVAILABLE))
    decreases |script| - from
  {
    hide IsCommentEvent;
    if from < |script| {
      assert script[from..][1..] == script[from + 1..];
      if IsDropped(script[from], max) {
        OpeningFrom(script, max, from + 1);
      }
    }
  }

  /** The error comes from the provider itself: it refused the request, or its stream raised the error before any event
      but comments. */
  predicate Raised(b: Behaviour, max: nat, error: ProviderError) {
    || b == Refuses(error)
    || (b.Streams? &&
        var k := LeadingComments(b.script, max, 0);
        k < |b.script| && b.script[k] == RaisesProviderError(error))
  }

  /** What a caller learns from an attempt. The loop ends with an error exactly when the provider itself raised one that
      is not retryable; whatever is retried is retryable; a stream is opened exactly when an event within the limit
      follows the leading comments, and that event is the first one handed over. */
  lemma AttemptMeans(b: Behaviour, max: nat)
    ensures
      var v := VerdictOn(b, max);
      && (v.Fatal? <==> exists error :: Raised(b, max, error) && !error.retryable)
      && (v.Fatal? ==> Raised(b, max, v.error) && !v.error.retryable)
      && (v.Retry? ==> v.error.retryable)
      && (v.Retry? ==> v.error == ProviderError(ProviderUnavailable, true, None) || Raised(b, max, v.error))
      && (forall error :: Raised(b, max, error) && error.retryable ==> v == Retry(error))
      && (v.Served? <==> b.Answers?)
      && (v.Escapes? <==> b.Unroutable?)
      && (v.Opened? <==> b.Streams? && var k := LeadingComments(b.script, max, 0);
                         k < |b.script| && b.script[k].Next? && b.script[k].e.bytes <= max)
      && (v.Opened? ==> !IsCommentEvent(v.first) && var k := LeadingComments(b.script, max, 0);
                        b.script[k] == Next(v.first) && b.script[k + 1..] == v.rest)
  {
    hide IsCommentEvent, Opening;
    if b.Streams? {
      OpeningFrom(b.script, max, 0);
      assert b.script[0..] == b.script;
    }
  }

  /** `_provider_error_status` */
  function ErrorStatus(error: ProviderError): int {
    match error.category
    case AuthError => if error.statusCode.Some? && error.statusCode.value != 0 then error.statusCode.value else 401
    case InvalidRequest => 400
    case ContextExceeded => 400
    case RateLimited => 429
    case ProviderUnavailable => 502
  }

  datatype Response =
    | Body(index: nat)
    | Stream(index: nat, first: Event, rest: seq<Pull>)
    | HttpError(status: int)
    | Uncaught(index: nat)

  /** One call to the health or logging functions, on behalf of the candidate with this index. */
  datatype Effect = Effect(index: nat, record: Record)

  predicate IsRetry(b: Behaviour, max: nat) {
    VerdictOn(b, max).Retry?
  }

  /** The error of an attempt that is retried. */
  function RetryError(b: Behaviour, max: nat): ProviderError {
    if IsRetry(b, max) then VerdictOn(b, max).error else UNAVAILABLE
  }

  /** The first attempt that ends the loop, or the number of candidates. */
  function Ender(behaviours: seq<Behaviour>, max: nat, from: nat): (n: nat)
    requires from <= |behaviours|
    ensures from <= n <= |behaviours| && (n < |behaviours| ==> !IsRetry(behaviours[n], max))
    ensures forall i :: from <= i < n ==> IsRetry(behaviours[i], max)
    decreases |behaviours| - from
  {
    if from < |behaviours| && IsRetry(behaviours[from], max) then Ender(behaviours, max, from + 1) else from
  }

  /** The calls made for a candidate that is retried. */
  function RetryRecords(error: ProviderError): seq<Record> {
    (if error.category != ContextExceeded then [MarkFailure] else []) + [LogFailure(error)]
  }

  /** The effects of the first `n` attempts, all of them retried. */
  function FailuresUpTo(behaviours: seq<Behaviour>, max: nat, n: nat): seq<Effect>
    requires n <= |behaviours|
  {
    if n == 0 then []
    else FailuresUpTo(behaviours, max, n - 1) + Tagged(n - 1, RetryRecords(RetryError(behaviours[n - 1], max)))
  }

  predicate AllContextExceeded(behaviours: seq<Behaviour>, max: nat, n: nat)
    requires n <= |behaviours|
  {
    forall i :: 0 <= i < n ==> RetryError(behaviours[i], max).category == ContextExceeded
  }

  datatype Outcome = Outcome(response: Response, effects: seq<Effect>)

  function EndResponse(n: nat, v: Verdict): Response {
    match v
    case Served => Body(n)
    case Opened(first, rest) => Stream(n, first, rest)
    case Fatal(error) => HttpError(ErrorStatus(error))
    case _ => Uncaught(n)
  }

  /** The calls made for the candidate that ends the loop. */
  function EndRecords(v: Verdict): seq<Record> {
    match v
    case Served => [MarkSuccess, LogSuccess]
    case Fatal(error) => [LogFailure(error)]
    case _ => []
  }

  function Tagged(n: nat, records: seq<Record>): (effects: seq<Effect>)
    ensures |effects| == |records|
    ensures forall i :: 0 <= i < |records| ==> effects[i] == Effect(n, records[i])
  {
    seq(|records|, i requires 0 <= i < |records| => Effect(n, records[i]))
  }

  function Completed(behaviours: seq<Behaviour>, max: nat): Outcome {
    var n := Ender(behaviours, max, 0);
    var failures := FailuresUpTo(behaviours, max, n);
    if n == |behaviours| then
      Outcome(HttpError(if n > 0 && AllContextExceeded(behaviours, max, n) then 400 else 502), failures)
    else
      var v := VerdictOn(behaviours[n], max);
      Outcome(EndResponse(n, v), failures + Tagged(n, EndRecords(v)))
  }

  method OpenStream(script: seq<Pull>, max: nat) returns (v: Verdict)
    ensures v == Opening(script, max)
  {
    var i := 0;
    while i < |script|
      invariant 0 <= i <= |script| && Opening(script, max) == Opening(script[i..], max)
    {
      assert script[i..][1..] == script[i + 1..];
      match script[i] {
        case Next(e) =>
          if e.bytes > max {
            return Retry(UNAVAILABLE);
          }
          if !IsCommentEvent(e) {
            return Opened(e, script[i + 1..]);
          }
        case RaisesProviderError(error) =>
          return Refusal(error);
        case _ =>
          return Retry(UNAVAILABLE);
      }
      i := i + 1;
    }
    return Retry(UNAVAILABLE);
  }

  method Attempt(b: Behaviour, max: nat) returns (v: Verdict)
    ensures v == VerdictOn(b, max)
  {
    match b
    case Unroutable => v := Escapes;
    case Answers => v := Served;
    case Refuses(error) => v := Refusal(error);
    case Crashes => v := Retry(UNAVAILABLE);
    case Streams(script) => v := OpenStream(script, max);
  }

  method ChatCompletions(behaviours: seq<Behaviour>, max: nat) returns (response: Response, effects: seq<Effect>)
    ensures Outcome(response, effects) == Completed(behaviours, max)
  {
    hide VerdictOn;
    effects := [];
    var lastProviderError: Option<ProviderError> := None;
    var allFailuresContextExceeded := true;
    var i := 0;
    while i < |behaviours|
      invariant 0 <= i <= |behaviours| && forall j :: 0 <= j < i ==> IsRetry(behaviours[j], max)
      invariant effects == FailuresUpTo(behaviours, max, i)
      invariant allFailuresContextExceeded == AllContextExceeded(behaviours, max, i)
      invariant lastProviderError == if i == 0 then None else Some(RetryError(behaviours[i - 1], max))
    {
      var v := Attempt(behaviours[i], max);
      EnderIs(behaviours, max, i);
      match v {
        case Escapes =>
          return Uncaught(i), effects;
        case Served =>
          return Body(i), effects + [Effect(i, MarkSuccess), Effect(i, LogSuccess)];
        case Opened(first, rest) =>
          return Stream(i, first, rest), effects;
        case Fatal(error) =>
          return HttpError(ErrorStatus(error)), effects + [Effect(i, LogFailure(error))];
        case Retry(error) =>
          lastProviderError := Some(error);
          if error.category != ContextExceeded {
            allFailuresContextExceeded := false;
            effects := effects + [Effect(i, MarkFailure)];
          }
          effects := effects + [Effect(i, LogFailure(error))];
      }
      i := i + 1;
    }
    EnderIs(behaviours, max, i);
    if lastProviderError.Some? && lastProviderError.value.category == ContextExceeded && allFailuresContextExceeded {
      return HttpError(400), effects;
    }
    return HttpError(502), effects;
  }

  lemma EnderIs(behaviours: seq<Behaviour>, max: nat, n: nat)
    requires n <= |behaviours| && forall i :: 0 <= i < n ==> IsRetry(behaviours[i], max)
    ensures n == |behaviours| || !IsRetry(behaviours[n], max) ==> Ender(behaviours, max, 0) == n
  {
    var m := Ender(behaviours, max, 0);
    assert !(m < n);
  }

  // ---------------------------------------------------------------------------------------------
  // What a whole request guarantees
  // ---------------------------------------------------------------------------------------------

  /** The calls made on behalf of candidate `i`, in order. */
  function For(effects: seq<Effect>, i: nat): seq<Record> {
    if effects == [] then []
    else For(Front(effects), i) + if Last(effects).index == i then [Last(effects).record] else []
  }

  lemma ForNothing(i: nat)
    ensures For([], i) == []
  {
  }

  lemma {:induction false} ForAppend(a: seq<Effect>, b: seq<Effect>, i: nat)
    ensures For(a + b, i) == For(a, i) + For(b, i)
  {
    if b == [] {
      assert a + b == a;
    } else {
      assert Front(a + b) == a + Front(b);
      ForAppend(a, Front(b), i);
    }
  }

  lemma {:induction false} ForTagged(n: nat, records: seq<Record>, i: nat)
    ensures For(Tagged(n, records), i) == if i == n then records else []
  {
    if records != [] {
      ForTagged(n, Front(records), i);
      assert Front(Tagged(n, records)) == Tagged(n, Front(records));
    }
  }

  lemma {:induction false} ForFailures(behaviours: seq<Behaviour>, max: nat, n: nat, i: nat)
    requires n <= |behaviours|
    ensures For(FailuresUpTo(behaviours, max, n), i) ==
            if i < n then RetryRecords(RetryError(behaviours[i], max)) else []
  {
    hide RetryError, RetryRecords, Tagged, For;
    if n > 0 {
      var before, records := FailuresUpTo(behaviours, max, n - 1), RetryRecords(RetryError(behaviours[n - 1], max));
      ForFailures(behaviours, max, n - 1, i);
      ForAppend(before, Tagged(n - 1, records), i);
      ForTagged(n - 1, records, i);
    } else {
      ForNothing(i);
    }
  }

  lemma CountInSnoc<T>(s: seq<T>, x: T, y: T)
    ensures multiset(s + [x])[y] == multiset(s)[y] + if x == y then 1 else 0
  {
  }

  lemma {:induction false} ForCounts(effects: seq<Effect>, i: nat, r: Record)
    ensures multiset(effects)[Effect(i, r)] == multiset(For(effects, i))[r]
  {
    if effects != [] {
      var before, last := Front(effects), Last(effects);
      ForCounts(before, i, r);
      assert effects == before + [last];
      CountInSnoc(before, last, Effect(i, r));
      if last.index == i {
        assert For(effects, i) == For(before, i) + [last.record];
        CountInSnoc(For(before, i), last.record, r);
      } else {
        assert For(effects, i) == For(before, i);
      }
    }
  }

  lemma CallsOf(behaviours: seq<Behaviour>, max: nat, i: nat)
    requires i < |behaviours|
    ensures
      var n := Ender(behaviours, max, 0);
      For(Completed(behaviours, max).effects, i) ==
        if i < n then RetryRecords(VerdictOn(behaviours[i], max).error)
        else if i == n then EndRecords(VerdictOn(behaviours[i], max))
        else []
  {
    hide VerdictOn, For, Tagged, EndRecords, RetryRecords;
    var n := Ender(behaviours, max, 0);
    ForFailures(behaviours, max, n, i);
    if n < |behaviours| {
      var records := EndRecords(VerdictOn(behaviours[n], max));
      ForAppend(FailuresUpTo(behaviours, max, n), Tagged(n, records), i);
      ForTagged(n, records, i);
    }
  }

  /** Candidate by candidate, each call at most once. A model is marked as failing exactly when its attempt was made and
      retried for another reason than an exceeded context; a failure is logged exactly for the attempts made that were
      retried or fatal, with their own error; and a success is marked and logged exactly for the attempt that served. */
  lemma CallsPerCandidate(behaviours: seq<Behaviour>, max: nat, i: nat, error: ProviderError)
    requires i < |behaviours|
    ensures
      var made, v := i <= Ender(behaviours, max, 0), VerdictOn(behaviours[i], max);
      var calls := multiset(Completed(behaviours, max).effects);
      && calls[Effect(i, MarkFailure)] == (if made && v.Retry? && v.error.category != ContextExceeded then 1 else 0)
      && calls[Effect(i, LogFailure(error))] == (if made && (v.Retry? || v.Fatal?) && v.error == error then 1 else 0)
      && calls[Effect(i, MarkSuccess)] == (if made && v.Served? then 1 else 0)
      && calls[Effect(i, LogSuccess)] == (if made && v.Served? then 1 else 0)
  {
    hide VerdictOn, For, FailuresUpTo, Completed;
    var effects := Completed(behaviours, max).effects;
    CallsOf(behaviours, max, i);
    ForCounts(effects, i, MarkFailure);
    ForCounts(effects, i, LogFailure(error));
    ForCounts(effects, i, MarkSuccess);
    ForCounts(effects, i, LogSuccess);
    assert i < Ender(behaviours, max, 0) ==> IsRetry(behaviours[i], max);
  }

  ghost predicate InCandidateOrder(effects: seq<Effect>) {
    forall i, j :: 0 <= i < j < |effects| ==> effects[i].index <= effects[j].index
  }

  /** The calls of one more candidate. */
  lemma OrderGrows(effects: seq<Effect>, more: seq<Effect>, n: nat)
    requires InCandidateOrder(effects)
    requires (forall e :: e in effects ==> e.index <= n) && (forall e :: e in more ==> e.index == n)
    ensures InCandidateOrder(effects + more) && forall e :: e in effects + more ==> e.index <= n
  {
  }

  lemma {:induction false} FailuresInOrder(behaviours: seq<Behaviour>, max: nat, n: nat)
    requires n <= |behaviours|
    ensures InCandidateOrder(FailuresUpTo(behaviours, max, n))
    ensures forall e :: e in FailuresUpTo(behaviours, max, n) ==> e.index < n
  {
    hide RetryError, RetryRecords, InCandidateOrder;
    if n > 0 {
      FailuresInOrder(behaviours, max, n - 1);
      var records := RetryRecords(RetryError(behaviours[n - 1], max));
      OrderGrows(FailuresUpTo(behaviours, max, n - 1), Tagged(n - 1, records), n - 1);
    } else {
      NoEffectsInOrder();
    }
  }

  lemma NoEffectsInOrder()
    ensures InCandidateOrder([])
  {
  }

  /** Attempts follow the order of the candidates and stop with the first that is not retried. */
  lemma AttemptsInOrder(behaviours: seq<Behaviour>, max: nat)
    ensures
      var effects, n := Completed(behaviours, max).effects, Ender(behaviours, max, 0);
      InCandidateOrder(effects) && forall e :: e in effects ==> e.index <= n
  {
    hide VerdictOn, InCandidateOrder, EndRecords, FailuresUpTo;
    var n := Ender(behaviours, max, 0);
    FailuresInOrder(behaviours, max, n);
    if n < |behaviours| {
      OrderGrows(FailuresUpTo(behaviours, max, n), Tagged(n, EndRecords(VerdictOn(behaviours[n], max))), n);
    }
  }

  /** The response. When every attempt is retried the status is 400 if there was one and each exceeded its context,
      and 502 otherwise; else the first attempt that is not retried decides: it serves the body, opens the stream, or
      is fatal with the status of its category. */
  lemma ResponseIs(behaviours: seq<Behaviour>, max: nat)
    ensures
      var r, n := Completed(behaviours, max).response, Ender(behaviours, max, 0);
      && (n == |behaviours| <==> forall b :: b in behaviours ==> VerdictOn(b, max).Retry?)
      && if n == |behaviours| then
          var onlyContext := forall b :: b in behaviours ==> VerdictOn(b, max).error.category == ContextExceeded;
          r == HttpError(if behaviours != [] && onlyContext then 400 else 502)
        else match VerdictOn(behaviours[n], max)
          case Served => r == Body(n)
          case Opened(first, rest) => r == Stream(n, first, rest)
          case Fatal(ProviderError(AuthError, _, status)) =>
            r == HttpError(if status.Some? && status.value != 0 then status.value else 401)
          case Fatal(ProviderError(RateLimited, _, _)) => r == HttpError(429)
          case Fatal(ProviderError(ProviderUnavailable, _, _)) => r == HttpError(502)
          case Fatal(_) => r == HttpError(400)
          case _ => r == Uncaught(n)
  {
    hide VerdictOn;
    var n := Ender(behaviours, max, 0);
    if n == |behaviours| {
      forall b | b in behaviours
        ensures VerdictOn(b, max).Retry?
      {
        var i :| 0 <= i < |behaviours| && behaviours[i] == b;
        assert IsRetry(behaviours[i], max);
      }
    } else {
      assert behaviours[n] in behaviours && !VerdictOn(behaviours[n], max).Retry?;
    }
  }

  /** Whatever a streaming client receives comes from the one candidate that ended the loop: the events of its script
      after the leading comments, cut off somewhere, and at most one marker made by the gateway after them. */
  lemma OneSource(behaviours: seq<Behaviour>, cfg: Setting)
    requires StaysGone(cfg.gone) && Completed(behaviours, cfg.maxEventBytes).response.Stream?
    ensures
      var s := Completed(behaviours, cfg.maxEventBytes).response;
      var output := Relay(cfg, s.first, s.rest).output;
      && s.index < |behaviours| && behaviours[s.index].Streams?
      && (var script := behaviours[s.index].script;
          var source := EventsOf(script[LeadingComments(script, cfg.maxEventBytes, 0)..]);
          output <= source || (output != [] && Front(output) <= source && Last(output) == GATEWAY_DONE))
  {
    hide EventsOf, Relay, IsCommentEvent, AnyDone, LeadingComments, Opening;
    var s := Completed(behaviours, cfg.maxEventBytes).response;
    AttemptMeans(behaviours[s.index], cfg.maxEventBytes);
    var script := behaviours[s.index].script;
    EventsFrom(script, LeadingComments(script, cfg.maxEventBytes, 0));
    OutputIsPrefixPlusMarker(cfg, s.first, s.rest);
    var forwarded := Forwarded(cfg, s.first, s.rest);
    assert Front(forwarded + [GATEWAY_DONE]) == forwarded;
    assert forwarded + [] == forwarded;
  }

  lemma EventsFrom(script: seq<Pull>, k: nat)
    requires k < |script| && script[k].Next?
    ensures EventsOf(script[k..]) == [script[k].e] + EventsOf(script[k + 1..])
  {
    assert script[k..][1..] == script[k + 1..];
  }
}
