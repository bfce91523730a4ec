/** Runs of deltas within one environment: what text reaches the browser,
    how the reasoning flag evolves, and worked scenarios: a whole block in
    one delta, a block split over two deltas, marker-only deltas. */
module DeltaRuns {
  import opened Text
  import opened Markers
  import opened Classifier
  import opened SessionStats
  import opened Decoder
  import SessionProperties

  /** Deltas without `finish_reason`, applied in order. */
  function ApplyDeltas(st: State, contents: seq<string>, pref: ThinkingPref, env: Env): Output
    decreases |contents|
  {
    if contents == [] then Output(st, [])
    else
      var o := ApplyDelta(st, contents[0], None, pref, env);
      var rest := ApplyDeltas(o.state, contents[1..], pref, env);
      Output(rest.state, o.events + rest.events)
  }

  /** The text of a run of records, in order. */
  function Texts(events: seq<Event>): string
    decreases |events|
  {
    if events == [] then "" else events[0].content + Texts(events[1..])
  }

  /** Each delta stripped on its own, concatenated. */
  function StripEach(contents: seq<string>): string
    decreases |contents|
  {
    if contents == [] then "" else Strip(contents[0]) + StripEach(contents[1..])
  }

  /** No marker straddles a delta boundary. */
  predicate Unstraddled(contents: seq<string>) {
    forall i :: 0 <= i < |contents| ==> NoStraddle(contents[i], Concat(contents[i + 1..]))
  }

  lemma TextsAppend(a: seq<Event>, b: seq<Event>)
    ensures Texts(a + b) == Texts(a) + Texts(b)
    decreases |a|
  {
    if a == [] {
      assert a + b == b;
    } else {
      assert (a + b)[1..] == a[1..] + b;
      TextsAppend(a[1..], b);
    }
  }

  /** Stripping delta by delta equals stripping the whole output at once,
      as long as no marker is cut by a delta boundary. */
  lemma {:induction false} StripPerDelta(contents: seq<string>)
    requires Unstraddled(contents)
    ensures StripEach(contents) == Strip(Concat(contents))
    decreases |contents|
  {
    if contents != [] {
      assert NoStraddle(contents[0], Concat(contents[1..]));
      StripConcat(contents[0], Concat(contents[1..]));
      assert Unstraddled(contents[1..]) by {
        forall i | 0 <= i < |contents[1..]|
          ensures NoStraddle(contents[1..][i], Concat(contents[1..][i + 1..]))
        {
          assert contents[1..][i] == contents[i + 1];
          assert contents[1..][i + 1..] == contents[i + 2..];
        }
      }
      StripPerDelta(contents[1..]);
    }
  }

  /** With an open output that takes every record and a preference other
      than exactly `false`, the browser receives every delta's stripped
      text, in order, and the output stays open. */
  lemma {:induction false} EmittedIsStripped(st: State, contents: seq<string>, pref: ThinkingPref, env: Env)
    requires !st.closed && pref != Off && env.accepts
    ensures Texts(ApplyDeltas(st, contents, pref, env).events) == StripEach(contents)
    ensures !ApplyDeltas(st, contents, pref, env).state.closed
    decreases |contents|
  {
    if contents != [] {
      var o := ApplyDelta(st, contents[0], None, pref, env);
      EmittedIsStripped(o.state, contents[1..], pref, env);
      TextsAppend(o.events, ApplyDeltas(o.state, contents[1..], pref, env).events);
      if contents[0] == "" {
        assert Strip(contents[0]) == "";
      } else {
        assert o.events == [Event(Strip(contents[0]), o.events[0].isThinking, o.state.stats, false)];
        assert Texts(o.events) == Strip(contents[0]);
      }
    }
  }

  /** The concatenation invariant: the text the browser receives is the
      whole raw output with every marker removed, when no marker is cut by
      a delta boundary. */
  lemma ConcatenationInvariant(st: State, contents: seq<string>, pref: ThinkingPref, env: Env)
    requires !st.closed && pref != Off && env.accepts
    requires Unstraddled(contents)
    ensures Texts(ApplyDeltas(st, contents, pref, env).events) == Strip(Concat(contents))
  {
    EmittedIsStripped(st, contents, pref, env);
    StripPerDelta(contents);
  }

  /** The `data: ` line of each payload, in order. */
  function PayloadLines(ps: seq<string>): (lines: seq<string>)
    ensures |lines| == |ps|
    ensures forall i :: 0 <= i < |ps| ==> lines[i] == DataPrefix + ps[i]
    decreases |ps|
  {
    if ps == [] then [] else [DataPrefix + ps[0]] + PayloadLines(ps[1..])
  }

  /** A parser that reads each payload of `ps` as a delta with the
      matching content of `contents` and no `finish_reason`, none of the
      payloads being the `[DONE]` sentinel. */
  predicate ReadsAsDeltas(cfg: Config, ps: seq<string>, contents: seq<string>) {
    && |ps| == |contents|
    && forall i :: 0 <= i < |ps| ==>
         ps[i] != DoneSentinel && cfg.parse(ps[i]) == Parsed(contents[i], None)
  }

  /** The `data: ` line of a payload that is not the sentinel carries
      exactly that payload. */
  lemma DataLineCarries(p: string)
    requires p != DoneSentinel
    ensures DataOf(DataPrefix + p) == Some(p)
  {
    var line := DataPrefix + p;
    assert StartsWith(line, DataPrefix) && line[|DataPrefix|..] == p;
  }

  /** A run of deltas is what the decoder does with the `data: ` lines
      whose payloads parse to them: everything proved about `ApplyDeltas`
      holds of `ProcessLines`. */
  lemma {:induction false} LinesAreDeltas(st: State, ps: seq<string>, contents: seq<string>, cfg: Config, env: Env)
    requires ReadsAsDeltas(cfg, ps, contents)
    ensures ProcessLines(st, PayloadLines(ps), cfg, env) == ApplyDeltas(st, contents, cfg.pref, env)
    decreases |ps|
  {
    if ps != [] {
      var lines := PayloadLines(ps);
      DataLineCarries(ps[0]);
      assert ProcessLine(st, lines[0], cfg, env) == ApplyDelta(st, contents[0], None, cfg.pref, env);
      assert lines[1..] == PayloadLines(ps[1..]);
      assert ReadsAsDeltas(cfg, ps[1..], contents[1..]) by {
        forall i | 0 <= i < |ps[1..]|
          ensures ps[1..][i] != DoneSentinel && cfg.parse(ps[1..][i]) == Parsed(contents[1..][i], None)
        {
          assert ps[1..][i] == ps[i + 1] && contents[1..][i] == contents[i + 1];
        }
      }
      var o := ApplyDelta(st, contents[0], None, cfg.pref, env);
      LinesAreDeltas(o.state, ps[1..], contents[1..], cfg, env);
    }
  }

  /** A delta carrying a `finish_reason` is the same delta without one,
      applied after the stop reason has been noted. */
  lemma ReasonNotedFirst(st: State, content: string, reason: Option<string>, pref: ThinkingPref, env: Env)
    ensures ApplyDelta(st, content, reason, pref, env)
         == ApplyDelta(st.(stats := NoteFinish(st.stats, reason)), content, None, pref, env)
  {
  }

  /** A stream whose last frame carries the `finish_reason`, as upstream
      streams end: the reason-free frames are a run of deltas, then the
      stop reason is noted, then the last content is one more delta. */
  lemma FinalFrame(st: State, ps: seq<string>, contents: seq<string>, p: string, c: string,
                   reason: Option<string>, cfg: Config, env: Env)
    requires ReadsAsDeltas(cfg, ps, contents)
    requires p != DoneSentinel && cfg.parse(p) == Parsed(c, reason)
    ensures var a := ApplyDeltas(st, contents, cfg.pref, env);
      var b := ApplyDeltas(a.state.(stats := NoteFinish(a.state.stats, reason)), [c], cfg.pref, env);
      ProcessLines(st, PayloadLines(ps + [p]), cfg, env) == Output(b.state, a.events + b.events)
  {
    var a := ApplyDeltas(st, contents, cfg.pref, env);
    LinesAreDeltas(st, ps, contents, cfg, env);
    assert PayloadLines(ps + [p]) == PayloadLines(ps) + [DataPrefix + p];
    SessionProperties.LinesAppend(st, PayloadLines(ps), [DataPrefix + p], cfg, env);
    DataLineCarries(p);
    ReasonNotedFirst(a.state, c, reason, cfg.pref, env);
    var noted := a.state.(stats := NoteFinish(a.state.stats, reason));
    OneDelta(noted, c, cfg.pref, env);
    OneLine(a.state, DataPrefix + p, cfg, env);
  }

  /** A run of one delta is that delta. */
  lemma OneDelta(st: State, c: string, pref: ThinkingPref, env: Env)
    ensures ApplyDeltas(st, [c], pref, env) == ApplyDelta(st, c, None, pref, env)
  {
    assert [c][1..] == [];
    assert ApplyDelta(st, c, None, pref, env).events + [] == ApplyDelta(st, c, None, pref, env).events;
  }

  /** A run of one line is that line. */
  lemma OneLine(st: State, line: string, cfg: Config, env: Env)
    ensures ProcessLines(st, [line], cfg, env) == ProcessLine(st, line, cfg, env)
  {
    assert [line][1..] == [];
    assert ProcessLine(st, line, cfg, env).events + [] == ProcessLine(st, line, cfg, env).events;
  }

  /** The decoder's reasoning flag after a run of deltas is the fold of
      `Classify` over their contents, empty ones leaving it alone; so the
      reference reading of `FlagTracksLastMarker` describes the decoder. */
  lemma {:induction false} DecoderFlagIsFlagAfter(st: State, contents: seq<string>, pref: ThinkingPref, env: Env)
    ensures ApplyDeltas(st, contents, pref, env).state.inside == FlagAfter(st.inside, contents)
    ensures ApplyDeltas(st, contents, pref, env).state.inside == LastMarkerFlag(st.inside, contents)
    decreases |contents|
  {
    if contents != [] {
      var o := ApplyDelta(st, contents[0], None, pref, env);
      if contents[0] == "" {
        assert !Contains("", Open) && !Contains("", Close);
      }
      assert o.state.inside == Classify(st.inside, contents[0]).insideAfter;
      DecoderFlagIsFlagAfter(o.state, contents[1..], pref, env);
    }
    FlagTracksLastMarker(st.inside, contents);
  }

  // ---------------------------------------------------------------------
  // Literal facts used by the scenarios

  /** No marker can straddle out of text that has no '<'. */
  lemma PlainNoStraddle(a: string, b: string)
    requires PlainText(a)
    ensures NoStraddle(a, b)
  {
    forall i | 0 <= i < |a|
      ensures EndsInside(a, b, i)
    {
      assert (a[i..] + b)[0] == a[i];
      NotAtMarker(a[i..] + b);
    }
  }

  /** Plain text followed by a closing marker and plain text strips to
      the two plain texts. */
  lemma StripsAroundClose(a: string, b: string)
    requires PlainText(a) && PlainText(b)
    ensures Strip(a + Close + b) == a + b
  {
    var r := Close + b;
    PlainNoStraddle(a, r);
    StripConcat(a, r);
    assert a + Close + b == a + r;
    KeepPlain(a);
    CloseDropped(b);
    KeepPlain(b);
  }

  /** A leading `</think>` is dropped. */
  lemma CloseDropped(b: string)
    ensures Strip(Close + b) == Strip(b)
  {
    var r := Close + b;
    assert !StartsWith(r, Open) by {
      assert r[..|Open|][1] != Open[1];
    }
    assert StartsWith(r, Close) && r[|Close|..] == b;
  }

  /** A leading `<think>` is dropped. */
  lemma OpenDropped(x: string)
    ensures Strip(Open + x) == Strip(x)
  {
    var s := Open + x;
    assert StartsWith(s, Open) && s[|Open|..] == x;
  }

  /** After its first character, `<think>` followed by plain text is plain. */
  lemma OpenTailPlain(x: string)
    requires PlainText(x)
    ensures PlainText((Open + x)[1..])
  {
    var t := (Open + x)[1..];
    forall i | 0 <= i < |t|
      ensures t[i] != '<'
    {
      if i >= 6 {
        assert t[i] == x[i - 6];
      } else {
        assert t[i] == Open[i + 1];
      }
    }
  }

  /** A delta that starts with `<think>` followed by plain text opens a
      block, holds no `</think>`, and strips to the plain text. */
  lemma OpeningDelta(x: string)
    requires PlainText(x)
    ensures Contains(Open + x, Open) && !Contains(Open + x, Close) && Strip(Open + x) == x
  {
    var s := Open + x;
    assert StartsWith(s, Open);
    OpenTailPlain(x);
    Plain(s[1..]);
    assert !StartsWith(s, Close) by {
      assert |s| >= |Close| ==> s[..|Close|][1] != Close[1];
    }
    OpenDropped(x);
    KeepPlain(x);
  }

  /** A delta of plain text, `</think>` and plain text holds `</think>`
      and strips to the two plain texts. */
  lemma ClosingDelta(y: string, z: string)
    requires PlainText(y) && PlainText(z)
    ensures Contains(y + Close + z, Close) && Strip(y + Close + z) == y + z
  {
    var s := y + Close + z;
    assert s[|y|..] == Close + z && StartsWith(s[|y|..], Close);
    MatchContained(s, Close, |y|);
    StripsAroundClose(y, z);
  }

  /** A whole block in one delta: `<think>`, plain text, `</think>`. */
  lemma WholeBlockDelta(x: string)
    requires PlainText(x)
    ensures var s := Open + x + Close;
      Contains(s, Open) && Contains(s, Close) && Strip(s) == x
  {
    var s := Open + x + Close;
    assert StartsWith(s, Open);
    assert s[|Open|..] == x + Close + "";
    assert s[|Open| + |x|..] == Close && StartsWith(s[|Open| + |x|..], Close);
    MatchContained(s, Close, |Open| + |x|);
    StripsAroundClose(x, "");
    assert x + "" == x;
  }

  /** A delta that is just `<think>` opens a block and strips to nothing. */
  lemma OpenOnly()
    ensures Contains(Open, Open) && !Contains(Open, Close) && Strip(Open) == ""
  {
    OpeningDelta("");
    assert Open + "" == Open;
  }

  /** A delta that is just `</think>` closes a block and strips to nothing. */
  lemma CloseOnly()
    ensures Contains(Close, Close) && Strip(Close) == ""
  {
    ClosingDelta("", "");
    assert "" + Close + "" == Close;
  }

  /** `</think>` holds no `<think>`. */
  lemma CloseHasNoOpen()
    ensures !Contains(Close, Open)
  {
    assert !StartsWith(Close, Open) by {
      assert Close[..|Open|][1] != Open[1];
    }
    assert PlainText(Close[1..]);
    Plain(Close[1..]);
  }

  // ---------------------------------------------------------------------
  // Scenarios

  /** One non-empty delta with reasoning shown and an output that takes it. */
  lemma ShownStep(st: State, raw: string, env: Env)
    requires raw != "" && !st.closed && env.accepts
    ensures var o := ApplyDelta(st, raw, None, On, env);
      var thinking := st.inside || Contains(raw, Open);
      && o.events == [Event(Strip(raw), thinking, o.state.stats, false)]
      && !o.state.closed
      && o.state.inside == (!Contains(raw, Close) && thinking)
      && o.state.stats.thinkingTokens == st.stats.thinkingTokens + (if thinking then 1 else 0)
      && o.state.stats.responseTokens == st.stats.responseTokens + (if thinking then 0 else 1)
  {
  }

  /** One non-empty delta with reasoning hidden and an output that takes
      it: only an answer delta sends its record. */
  lemma HiddenStep(st: State, raw: string, env: Env)
    requires raw != "" && !st.closed && env.accepts
    ensures var o := ApplyDelta(st, raw, None, Off, env);
      var thinking := st.inside || Contains(raw, Open);
      && o.events == (if thinking then [] else [Event(Strip(raw), false, o.state.stats, false)])
      && !o.state.closed
      && o.state.inside == (!Contains(raw, Close) && thinking)
      && o.state.stats.thinkingTokens == st.stats.thinkingTokens + (if thinking then 1 else 0)
      && o.state.stats.responseTokens == st.stats.responseTokens + (if thinking then 0 else 1)
  {
  }

  /** Three deltas are the three single steps, one after the other. */
  lemma ThreeDeltas(st: State, ds: seq<string>, pref: ThinkingPref, env: Env)
    requires |ds| == 3
    ensures var o1 := ApplyDelta(st, ds[0], None, pref, env);
      var o2 := ApplyDelta(o1.state, ds[1], None, pref, env);
      var o3 := ApplyDelta(o2.state, ds[2], None, pref, env);
      ApplyDeltas(st, ds, pref, env) == Output(o3.state, o1.events + o2.events + o3.events)
  {
    var o1 := ApplyDelta(st, ds[0], None, pref, env);
    var o2 := ApplyDelta(o1.state, ds[1], None, pref, env);
    var o3 := ApplyDelta(o2.state, ds[2], None, pref, env);
    assert ds[1..][0] == ds[1] && ds[1..][1..] == [ds[2]] && ds[1..][1..][1..] == [];
    assert ApplyDeltas(o2.state, [ds[2]], pref, env) == Output(o3.state, o3.events);
    assert o1.events + (o2.events + o3.events) == o1.events + o2.events + o3.events;
  }

  /** An answer delta, a whole reasoning block in one delta and another
      answer delta, with reasoning shown: three records, the middle one
      reasoning with the block's text, one reasoning token and two answer
      tokens. */
  lemma ScenarioShown(start: int, env: Env, a: string, x: string, c: string)
    requires a != "" && c != "" && PlainText(a) && PlainText(x) && PlainText(c)
    requires env.accepts
    ensures var o := ApplyDeltas(Init(start), [a, Open + x + Close, c], On, env);
      && |o.events| == 3
      && o.events[0].content == a && !o.events[0].isThinking
      && o.events[1].content == x && o.events[1].isThinking
      && o.events[2].content == c && !o.events[2].isThinking
      && o.state.stats.thinkingTokens == 1 && o.state.stats.responseTokens == 2
      && !o.state.inside
  {
    Plain(a);
    Plain(c);
    WholeBlockDelta(x);
    var b := Open + x + Close;
    var st := Init(start);
    var o1 := ApplyDelta(st, a, None, On, env);
    ShownStep(st, a, env);
    var o2 := ApplyDelta(o1.state, b, None, On, env);
    ShownStep(o1.state, b, env);
    var o3 := ApplyDelta(o2.state, c, None, On, env);
    ShownStep(o2.state, c, env);
    assert o1.events + o2.events + o3.events
        == [Event(a, false, o1.state.stats, false),
            Event(x, true, o2.state.stats, false),
            Event(c, false, o3.state.stats, false)];
    ThreeDeltas(st, [a, b, c], On, env);
  }

  /** The same deltas with the preference exactly `false`: only the two
      answer records are sent, and the reasoning token is still counted. */
  lemma ScenarioSuppressed(start: int, env: Env, a: string, x: string, c: string)
    requires a != "" && c != "" && PlainText(a) && PlainText(x) && PlainText(c)
    requires env.accepts
    ensures var o := ApplyDeltas(Init(start), [a, Open + x + Close, c], Off, env);
      && |o.events| == 2
      && o.events[0].content == a && o.events[1].content == c
      && !o.events[0].isThinking && !o.events[1].isThinking
      && o.state.stats.thinkingTokens == 1 && o.state.stats.responseTokens == 2
  {
    Plain(a);
    Plain(c);
    WholeBlockDelta(x);
    var b := Open + x + Close;
    var st := Init(start);
    var o1 := ApplyDelta(st, a, None, Off, env);
    HiddenStep(st, a, env);
    var o2 := ApplyDelta(o1.state, b, None, Off, env);
    HiddenStep(o1.state, b, env);
    var o3 := ApplyDelta(o2.state, c, None, Off, env);
    HiddenStep(o2.state, c, env);
    assert o1.events + o2.events + o3.events
        == [Event(a, false, o1.state.stats, false), Event(c, false, o3.state.stats, false)];
    ThreeDeltas(st, [a, b, c], Off, env);
  }

  /** Markers in their own deltas are tokens too: each is counted as
      reasoning and sent as a reasoning record with empty text. */
  lemma ScenarioMarkerDeltas(start: int, env: Env, x: string)
    requires x != "" && PlainText(x)
    requires env.accepts
    ensures var o := ApplyDeltas(Init(start), [Open, x, Close], On, env);
      && |o.events| == 3
      && o.events[0].content == "" && o.events[0].isThinking
      && o.events[1].content == x && o.events[1].isThinking
      && o.events[2].content == "" && o.events[2].isThinking
      && o.state.stats.thinkingTokens == 3 && o.state.stats.responseTokens == 0
      && !o.state.inside
  {
    OpenOnly();
    CloseOnly();
    Plain(x);
    var st := Init(start);
    var o1 := ApplyDelta(st, Open, None, On, env);
    ShownStep(st, Open, env);
    var o2 := ApplyDelta(o1.state, x, None, On, env);
    ShownStep(o1.state, x, env);
    var o3 := ApplyDelta(o2.state, Close, None, On, env);
    ShownStep(o2.state, Close, env);
    assert o1.events + o2.events + o3.events
        == [Event("", true, o1.state.stats, false),
            Event(x, true, o2.state.stats, false),
            Event("", true, o3.state.stats, false)];
    ThreeDeltas(st, [Open, x, Close], On, env);
  }

  /** A `</think>` delta outside a block is an answer token: it is
      counted as an answer, stamps `firstResponseTokenTime` if still unset,
      and goes out as an empty answer record. */
  lemma StrayClose(st: State, env: Env)
    requires !st.inside && !st.closed && env.accepts
    ensures var o := ApplyDelta(st, Close, None, On, env);
      && o.events == [Event("", false, o.state.stats, false)]
      && o.state.stats.responseTokens == st.stats.responseTokens + 1
      && o.state.stats.thinkingTokens == st.stats.thinkingTokens
      && (st.stats.firstResponseTokenTime == 0 ==> o.state.stats.firstResponseTokenTime == env.now)
      && !o.state.inside
  {
    CloseOnly();
    CloseHasNoOpen();
    ShownStep(st, Close, env);
  }

  /** A block opened in one delta and closed in the next: both deltas are
      reasoning, their markers are stripped, and the flag is clear after
      the second. */
  lemma ScenarioSplitBlock(start: int, env: Env, x: string, y: string, z: string)
    requires PlainText(x) && PlainText(y) && PlainText(z)
    requires env.accepts
    ensures var o := ApplyDeltas(Init(start), [Open + x, y + Close + z], On, env);
      && |o.events| == 2
      && o.events[0].content == x && o.events[0].isThinking
      && o.events[1].content == y + z && o.events[1].isThinking
      && !o.state.inside
  {
    OpeningDelta(x);
    ClosingDelta(y, z);
    var a := Open + x;
    var b := y + Close + z;
    var st := Init(start);
    var o1 := ApplyDelta(st, a, None, On, env);
    ShownStep(st, a, env);
    var o2 := ApplyDelta(o1.state, b, None, On, env);
    ShownStep(o1.state, b, env);
    var ds := [a, b];
    assert ds[1..] == [b] && ds[1..][1..] == [];
    assert ApplyDeltas(o2.state, [], On, env) == Output(o2.state, []);
    assert ApplyDeltas(o1.state, [b], On, env) == Output(o2.state, o2.events);
  }
}
