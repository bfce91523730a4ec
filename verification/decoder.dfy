/** The streaming decoder of the chat route: pending text, reasoning flag,
    statistics and the closed flag of the output, threaded through one
    chunk, one line and one delta at a time, producing the events the
    browser receives.

    The environment is explicit. `Env.now` is the clock reading for all
    work done while one chunk is processed; `Env.accepts` says whether the
    output would take an event (an `enqueue` that throws is an `Env` with
    `accepts == false`). JSON decoding of a payload is the `parse`
    parameter of the configuration. */
module Decoder {
  import opened Text
  import opened Markers
  import opened Classifier
  import opened SessionStats
  import Framing

  /** The request's `enableThinking`: exactly `true`, exactly `false`, or
      anything else (absent, null, a string ...). */
  datatype ThinkingPref = On | Off | Unset

  /** One payload after `JSON.parse`: `Malformed` when parsing throws or
      the object has no `choices`; otherwise `choices[0].delta.content`
      (empty when missing) and `choices[0].finish_reason`. */
  datatype Payload = Malformed | Parsed(content: string, finishReason: Option<string>)

  datatype Config = Config(pref: ThinkingPref, parse: string -> Payload)

  datatype Env = Env(now: int, accepts: bool)

  /** One record sent to the browser: `{content, isThinking, stats, completed}`. */
  datatype Event = Event(content: string, isThinking: bool, stats: Stats, completed: bool)

  datatype State = State(buffer: string, inside: bool, stats: Stats, closed: bool)

  datatype Output = Output(state: State, events: seq<Event>)

  const DataPrefix: string := "data: "
  const DoneSentinel: string := "[DONE]"

  /** The state when the upstream body starts streaming at `start`. */
  function Init(start: int): (r: State)
    ensures r.buffer == "" && !r.inside && !r.closed
    ensures r.stats == Initial(start)
  {
    State("", false, Initial(start), false)
  }

  /** Reasoning deltas are withheld only when the preference is exactly `false`. */
  predicate Suppressed(pref: ThinkingPref, thinking: bool) {
    pref == Off && thinking
  }

  /** Hand one delta's event to the output. A suppressed delta and a closed
      output send nothing; an output that refuses the event is marked
      closed for good. */
  function Emit(st: State, content: string, thinking: bool, pref: ThinkingPref, accepts: bool): (r: Output)
    ensures r.state == st || r.state == st.(closed := true)
    ensures |r.events| == 1 <==> !st.closed && !Suppressed(pref, thinking) && accepts
    ensures r.state.closed <==> st.closed || (!Suppressed(pref, thinking) && !accepts)
    ensures forall e :: e in r.events ==> e == Event(content, thinking, st.stats, false)
  {
    if Suppressed(pref, thinking) || st.closed then Output(st, [])
    else if accepts then Output(st, [Event(content, thinking, st.stats, false)])
    else Output(st.(closed := true), [])
  }

  /** One parsed delta: note the stop reason; if the content is non-empty,
      classify it, count it, move the flag and emit its stripped text with
      the updated statistics. */
  function ApplyDelta(st: State, content: string, reason: Option<string>, pref: ThinkingPref, env: Env): (r: Output)
    ensures |r.events| <= 1
    ensures r.state.buffer == st.buffer
    ensures st.closed ==> r.state.closed && r.events == []
    ensures r.state.stats.startTime == st.stats.startTime && r.state.stats.endTime == st.stats.endTime
  {
    var noted := st.(stats := NoteFinish(st.stats, reason));
    if content == "" then Output(noted, [])
    else
      var v := Classify(st.inside, content);
      var counted := noted.(inside := v.insideAfter, stats := CountToken(noted.stats, v, env.now));
      Emit(counted, Strip(content), v.thinking, pref, env.accepts)
  }

  /** The payload of a line that carries one: a `data: ` line that is not
      the `[DONE]` sentinel. */
  function DataOf(line: string): (r: Option<string>)
    ensures r.Some? <==> StartsWith(line, DataPrefix) && line[|DataPrefix|..] != DoneSentinel
    ensures r.Some? ==> DataPrefix + r.value == line
  {
    if !StartsWith(line, DataPrefix) then None
    else
      var data := line[|DataPrefix|..];
      if data == DoneSentinel then None else Some(data)
  }

  /** One complete line: everything but a parsed `data: ` payload is skipped. */
  function ProcessLine(st: State, line: string, cfg: Config, env: Env): (r: Output)
    ensures |r.events| <= 1
    ensures DataOf(line).None? ==> r == Output(st, [])
    ensures r.state.buffer == st.buffer
    ensures st.closed ==> r.state.closed && r.events == []
    ensures r.state.stats.startTime == st.stats.startTime && r.state.stats.endTime == st.stats.endTime
  {
    match DataOf(line)
    case None => Output(st, [])
    case Some(data) =>
      match cfg.parse(data)
      case Malformed => Output(st, [])
      case Parsed(content, reason) => ApplyDelta(st, content, reason, cfg.pref, env)
  }

  /** The complete lines of one chunk, in order. */
  function ProcessLines(st: State, lines: seq<string>, cfg: Config, env: Env): (r: Output)
    ensures |r.events| <= |lines|
    ensures r.state.buffer == st.buffer
    ensures st.closed ==> r.state.closed && r.events == []
    ensures r.state.stats.startTime == st.stats.startTime && r.state.stats.endTime == st.stats.endTime
    decreases |lines|
  {
    if lines == [] then Output(st, [])
    else
      var o := ProcessLine(st, lines[0], cfg, env);
      var rest := ProcessLines(o.state, lines[1..], cfg, env);
      Output(rest.state, o.events + rest.events)
  }

  /** One chunk: frame it against the pending text, keep the unterminated
      tail pending, and process the complete lines. */
  function Step(st: State, chunk: string, cfg: Config, env: Env): (r: Output)
    ensures Framing.Unlines(Framing.Frame(st.buffer, chunk).lines) + r.state.buffer == st.buffer + chunk
    ensures NoNewline(r.state.buffer)
    ensures |r.events| <= |Framing.Frame(st.buffer, chunk).lines|
    ensures st.closed ==> r.state.closed && r.events == []
    ensures r.state.stats.startTime == st.stats.startTime && r.state.stats.endTime == st.stats.endTime
  {
    var f := Framing.Frame(st.buffer, chunk);
    ProcessLines(st.(buffer := f.rest), f.lines, cfg, env)
  }

  /** A run of chunks, each with its own environment. */
  function Feed(st: State, chunks: seq<string>, cfg: Config, envs: seq<Env>): (r: Output)
    requires |envs| == |chunks|
    ensures st.closed ==> r.state.closed && r.events == []
    ensures r.state.stats.startTime == st.stats.startTime && r.state.stats.endTime == st.stats.endTime
    ensures chunks != [] ==> NoNewline(r.state.buffer)
    decreases |chunks|
  {
    if chunks == [] then Output(st, [])
    else
      var o := Step(st, chunks[0], cfg, envs[0]);
      var rest := Feed(o.state, chunks[1..], cfg, envs[1..]);
      Output(rest.state, o.events + rest.events)
  }

  /** The body is exhausted: stamp `endTime` and, unless the output is
      closed, send the one `completed` record. The pending text is dropped
      unprocessed. */
  function Finish(st: State, env: Env): (r: Output)
    ensures r.state.stats == st.stats.(endTime := env.now)
    ensures r.state.inside == st.inside && r.state.buffer == st.buffer
    ensures |r.events| == 1 <==> !st.closed && env.accepts
    ensures |r.events| <= 1
    ensures forall e :: e in r.events ==> e == Event("", false, r.state.stats, true)
    ensures r.state.closed <==> st.closed || !env.accepts
  {
    var ended := st.(stats := Finalize(st.stats, env.now));
    if ended.closed then Output(ended, [])
    else if env.accepts then Output(ended, [Event("", false, ended.stats, true)])
    else Output(ended.(closed := true), [])
  }

  /** A whole response: start at `start`, feed every chunk, then finish. */
  function Session(start: int, chunks: seq<string>, cfg: Config, envs: seq<Env>, endEnv: Env): (r: Output)
    requires |envs| == |chunks|
    ensures r.state.stats.startTime == start && r.state.stats.endTime == endEnv.now
  {
    var o := Feed(Init(start), chunks, cfg, envs);
    var f := Finish(o.state, endEnv);
    Output(f.state, o.events + f.events)
  }
}
