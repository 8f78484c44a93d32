/** The assistant's top-level voice cycle and its brain. The ear's wake-word
    detector only ever returns once the wake word was heard, so each cycle's only
    input is the command it captured (`None` on silence or unintelligible audio).
    The language model is an oracle: given the commands already sent in this chat and
    a new one, it returns a reply or raises. */
module VoiceLoop {
  import opened Wrappers

  /** The chat session of the reasoner: (commands sent so far, new command) to the
      reply text or the exception it raised. */
  type Reasoner = (seq<string>, string) -> Outcome<string>

  const ErrorPrefix := "I encountered an error processing that: "

  /** `Brain.process_input`: the reply text, or the exception turned into a sentence;
      it never raises. */
  function ProcessInput(reason: Reasoner, history: seq<string>, command: string): (r: string)
    ensures reason(history, command).Returned? ==> r == reason(history, command).value
    ensures reason(history, command).Raised? ==> r == ErrorPrefix + reason(history, command).message
  {
    match reason(history, command)
    case Returned(text) => text
    case Raised(e) => ErrorPrefix + e
  }

  /** What the speaker says. */
  datatype Utterance = Greeting | Prompt | Reply(text: string) | Fallback

  function Text(u: Utterance): string {
    match u
    case Greeting => "Systems online. Ready."
    case Prompt => "Yes?"
    case Reply(t) => t
    case Fallback => "I didn't catch that."
  }

  /** What the loop does, in order: speak, capture a command (with what the capture
      returned), or hand a command to the brain. */
  datatype Action = Say(u: Utterance) | Listen(heard: Option<string>) | Consult(command: string)

  /** The loop's state: the commands the brain's chat has received, oldest first. */
  datatype Assistant = Assistant(history: seq<string>)

  /** The second utterance of a cycle: the brain's reply for a truthy command, the
      fallback otherwise. */
  function Answer(history: seq<string>, command: Option<string>, reason: Reasoner): Utterance {
    if Truthy(command) then Reply(ProcessInput(reason, history, command.value)) else Fallback
  }

  /** One wake-word cycle: "Yes?" is spoken before the command is captured; then either
      the command goes to the brain once and its reply is spoken, or the fallback is
      spoken and the brain is left alone. */
  function Step(s: Assistant, command: Option<string>, reason: Reasoner): (r: (Assistant, seq<Action>))
    ensures Truthy(command) ==>
      && r.0.history == s.history + [command.value]
      && r.1 == [Say(Prompt), Listen(command), Consult(command.value), Say(Answer(s.history, command, reason))]
    ensures !Truthy(command) ==> r.0 == s && r.1 == [Say(Prompt), Listen(command), Say(Fallback)]
  {
    if Truthy(command) then
      (Assistant(s.history + [command.value]),
       [Say(Prompt), Listen(command), Consult(command.value), Say(Reply(ProcessInput(reason, s.history, command.value)))])
    else (s, [Say(Prompt), Listen(command), Say(Fallback)])
  }

  /** Cycles over a trace of captured commands, from a given state. */
  function RunFrom(s: Assistant, trace: seq<Option<string>>, reason: Reasoner): (Assistant, seq<Action>)
    decreases |trace|
  {
    if |trace| == 0 then (s, [])
    else
      var first := Step(s, trace[0], reason);
      var rest := RunFrom(first.0, trace[1..], reason);
      (rest.0, first.1 + rest.1)
  }

  /** `main`: the greeting, then one cycle per wake word. The brain is handed exactly
      the truthy commands, and after the greeting every cycle says "Yes?" and then
      the answer to its command. */
  function Run(trace: seq<Option<string>>, reason: Reasoner): (r: seq<Action>)
    ensures |r| > 0 && r[0] == Say(Greeting)
    ensures Consulted(r) == HeardCommands(trace)
    ensures |Spoken(r)| > 0 && Spoken(r)[0] == Greeting
    ensures SpeaksCycles(Spoken(r)[1..], [], trace, reason)
  {
    var cycles := RunFrom(Assistant([]), trace, reason).1;
    SpokenAppend([Say(Greeting)], cycles);
    ConsultedAppend([Say(Greeting)], cycles);
    SpokenCons(Say(Greeting), []);
    ConsultedCons(Say(Greeting), []);
    assert [Say(Greeting)] + [] == [Say(Greeting)];
    RunFromSpeaks(Assistant([]), trace, reason);
    RunFromConsults(Assistant([]), trace, reason);
    [Say(Greeting)] + cycles
  }

  /** The truthy commands of a trace, in order. */
  function HeardCommands(trace: seq<Option<string>>): seq<string> {
    if |trace| == 0 then []
    else (if Truthy(trace[0]) then [trace[0].value] else []) + HeardCommands(trace[1..])
  }

  function Spoken(actions: seq<Action>): seq<Utterance> {
    if |actions| == 0 then []
    else (if actions[0].Say? then [actions[0].u] else []) + Spoken(actions[1..])
  }

  function Consulted(actions: seq<Action>): seq<string> {
    if |actions| == 0 then []
    else (if actions[0].Consult? then [actions[0].command] else []) + Consulted(actions[1..])
  }

  lemma {:induction false} SpokenAppend(a: seq<Action>, b: seq<Action>)
    ensures Spoken(a + b) == Spoken(a) + Spoken(b)
    decreases |a|
  {
    if |a| == 0 {
      assert a + b == b;
    } else {
      var h := (if a[0].Say? then [a[0].u] else []);
      SpokenAppend(a[1..], b);
      assert (a + b)[1..] == a[1..] + b;
      calc {
        Spoken(a + b);
        h + Spoken(a[1..] + b);
        h + (Spoken(a[1..]) + Spoken(b));
        (h + Spoken(a[1..])) + Spoken(b);
      }
    }
  }

  lemma {:induction false} ConsultedAppend(a: seq<Action>, b: seq<Action>)
    ensures Consulted(a + b) == Consulted(a) + Consulted(b)
    decreases |a|
  {
    if |a| == 0 {
      assert a + b == b;
    } else {
      var h := (if a[0].Consult? then [a[0].command] else []);
      ConsultedAppend(a[1..], b);
      assert (a + b)[1..] == a[1..] + b;
      calc {
        Consulted(a + b);
        h + Consulted(a[1..] + b);
        h + (Consulted(a[1..]) + Consulted(b));
        (h + Consulted(a[1..])) + Consulted(b);
      }
    }
  }

  lemma {:induction false} HeardCommandsAppend(a: seq<Option<string>>, b: seq<Option<string>>)
    ensures HeardCommands(a + b) == HeardCommands(a) + HeardCommands(b)
    decreases |a|
  {
    if |a| == 0 {
      assert a + b == b;
    } else {
      var h := (if Truthy(a[0]) then [a[0].value] else []);
      HeardCommandsAppend(a[1..], b);
      assert (a + b)[1..] == a[1..] + b;
      calc {
        HeardCommands(a + b);
        h + HeardCommands(a[1..] + b);
        h + (HeardCommands(a[1..]) + HeardCommands(b));
        (h + HeardCommands(a[1..])) + HeardCommands(b);
      }
    }
  }

  lemma SpokenCons(a: Action, rest: seq<Action>)
    ensures Spoken([a] + rest) == (if a.Say? then [a.u] else []) + Spoken(rest)
  {
    assert ([a] + rest)[1..] == rest;
  }

  lemma ConsultedCons(a: Action, rest: seq<Action>)
    ensures Consulted([a] + rest) == (if a.Consult? then [a.command] else []) + Consulted(rest)
  {
    assert ([a] + rest)[1..] == rest;
  }

  /** "Yes?" opens every cycle, and the cycle's only capture comes right after it. */
  lemma StepPromptsBeforeListening(s: Assistant, command: Option<string>, reason: Reasoner)
    ensures Step(s, command, reason).1[0] == Say(Prompt) && Step(s, command, reason).1[1] == Listen(command)
    ensures forall i :: 1 < i < |Step(s, command, reason).1| ==> !Step(s, command, reason).1[i].Listen?
  {
  }

  /** What one cycle says and hands to the brain, seen through the filters. */
  lemma StepEffects(s: Assistant, command: Option<string>, reason: Reasoner)
    ensures Spoken(Step(s, command, reason).1) == [Prompt, Answer(s.history, command, reason)]
    ensures Consulted(Step(s, command, reason).1) == HeardCommands([command])
    ensures Step(s, command, reason).0.history == s.history + HeardCommands([command])
  {
    var acts := Step(s, command, reason).1;
    assert HeardCommands([command]) == (if Truthy(command) then [command.value] else []) + HeardCommands([]);
    var last := Say(Answer(s.history, command, reason));
    SpokenCons(last, []);
    ConsultedCons(last, []);
    var ear := Listen(command);
    if Truthy(command) {
      var mid := Consult(command.value);
      SpokenCons(mid, [last]);
      ConsultedCons(mid, [last]);
      SpokenCons(ear, [mid, last]);
      ConsultedCons(ear, [mid, last]);
      SpokenCons(Say(Prompt), [ear, mid, last]);
      ConsultedCons(Say(Prompt), [ear, mid, last]);
      assert acts == [Say(Prompt)] + ([ear] + ([mid] + [last]));
    } else {
      SpokenCons(ear, [last]);
      ConsultedCons(ear, [last]);
      SpokenCons(Say(Prompt), [ear, last]);
      ConsultedCons(Say(Prompt), [ear, last]);
      assert acts == [Say(Prompt)] + ([ear] + [last]);
    }
  }

  lemma RunFromUnfold(s: Assistant, trace: seq<Option<string>>, reason: Reasoner)
    requires |trace| > 0
    ensures var first := Step(s, trace[0], reason);
      var rest := RunFrom(first.0, trace[1..], reason);
      RunFrom(s, trace, reason) == (rest.0, first.1 + rest.1)
  {
  }

  /** The brain receives exactly the truthy commands, each once, in the order heard,
      and its chat history grows by exactly those commands. */
  lemma {:induction false} RunFromConsults(s: Assistant, trace: seq<Option<string>>, reason: Reasoner)
    ensures Consulted(RunFrom(s, trace, reason).1) == HeardCommands(trace)
    ensures RunFrom(s, trace, reason).0.history == s.history + HeardCommands(trace)
    decreases |trace|
  {
    if |trace| > 0 {
      var first := Step(s, trace[0], reason);
      var rest := RunFrom(first.0, trace[1..], reason);
      RunFromUnfold(s, trace, reason);
      RunFromConsults(first.0, trace[1..], reason);
      ConsultedAppend(first.1, rest.1);
      StepEffects(s, trace[0], reason);
      assert trace == [trace[0]] + trace[1..];
      HeardCommandsAppend([trace[0]], trace[1..]);
    }
  }

  /** `sp` is what the cycles of `trace` say, starting from chat history `history`:
      two utterances per cycle, "Yes?" and then the answer to that cycle's command. */
  predicate SpeaksCycles(sp: seq<Utterance>, history: seq<string>, trace: seq<Option<string>>, reason: Reasoner) {
    && |sp| == 2 * |trace|
    && forall k :: 0 <= k < |trace| ==>
         sp[2 * k] == Prompt && sp[2 * k + 1] == Answer(history + HeardCommands(trace[..k]), trace[k], reason)
  }

  lemma SpeaksCyclesCons(sp: seq<Utterance>, history: seq<string>, c: Option<string>,
                         trace: seq<Option<string>>, reason: Reasoner)
    requires SpeaksCycles(sp, history + HeardCommands([c]), trace, reason)
    ensures SpeaksCycles([Prompt, Answer(history, c, reason)] + sp, history, [c] + trace, reason)
  {
    var sp' := [Prompt, Answer(history, c, reason)] + sp;
    var t' := [c] + trace;
    forall k | 0 <= k < |t'|
      ensures sp'[2 * k] == Prompt && sp'[2 * k + 1] == Answer(history + HeardCommands(t'[..k]), t'[k], reason)
    {
      if k == 0 {
        assert t'[..0] == [];
        assert history + HeardCommands([]) == history;
      } else {
        assert t'[..k] == [c] + trace[..k - 1];
        HeardCommandsAppend([c], trace[..k - 1]);
        assert history + HeardCommands(t'[..k])
            == (history + HeardCommands([c])) + HeardCommands(trace[..k - 1]);
        assert t'[k] == trace[k - 1];
        assert sp'[2 * k] == sp[2 * (k - 1)];
        assert sp'[2 * k + 1] == sp[2 * (k - 1) + 1];
      }
    }
  }

  /** Each cycle speaks exactly two utterances: "Yes?" first, then the brain's reply
      to the command (given everything heard before it) or the fallback. */
  lemma {:induction false} RunFromSpeaks(s: Assistant, trace: seq<Option<string>>, reason: Reasoner)
    ensures SpeaksCycles(Spoken(RunFrom(s, trace, reason).1), s.history, trace, reason)
    decreases |trace|
  {
    if |trace| > 0 {
      var first := Step(s, trace[0], reason);
      var rest := RunFrom(first.0, trace[1..], reason);
      RunFromUnfold(s, trace, reason);
      RunFromSpeaks(first.0, trace[1..], reason);
      SpokenAppend(first.1, rest.1);
      StepEffects(s, trace[0], reason);
      SpeaksCyclesCons(Spoken(rest.1), s.history, trace[0], trace[1..], reason);
      assert [trace[0]] + trace[1..] == trace;
    }
  }

  /** The greeting opens the run and is never spoken again; every wake word then
      adds exactly two utterances. */
  lemma RunGreetsOnce(trace: seq<Option<string>>, reason: Reasoner)
    ensures |Spoken(Run(trace, reason))| == 1 + 2 * |trace|
    ensures Spoken(Run(trace, reason))[0] == Greeting
    ensures forall k :: 1 <= k < |Spoken(Run(trace, reason))| ==> Spoken(Run(trace, reason))[k] != Greeting
  {
    var cycles := RunFrom(Assistant([]), trace, reason).1;
    SpokenAppend([Say(Greeting)], cycles);
    RunFromSpeaks(Assistant([]), trace, reason);
    var sp := Spoken(cycles);
    forall j | 0 <= j < |sp| ensures sp[j] != Greeting {
      var k := j / 2;
      if j == 2 * k {
        assert sp[2 * k] == Prompt;
      } else {
        assert j == 2 * k + 1;
        assert sp[2 * k + 1] == Answer([] + HeardCommands(trace[..k]), trace[k], reason);
      }
    }
  }

  lemma RunFromSingle(s: Assistant, command: Option<string>, reason: Reasoner)
    ensures RunFrom(s, [command], reason) == Step(s, command, reason)
  {
    RunFromUnfold(s, [command], reason);
    assert [command][1..] == [];
    var next := Step(s, command, reason);
    assert next.1 + [] == next.1;
  }

  /** While every capture returns, one more wake word runs one more cycle from the
      state the trace left behind, appending its actions. */
  lemma {:induction false} RunFromExtends(s: Assistant, trace: seq<Option<string>>, command: Option<string>, reason: Reasoner)
    ensures var before := RunFrom(s, trace, reason);
      var next := Step(before.0, command, reason);
      RunFrom(s, trace + [command], reason) == (next.0, before.1 + next.1)
    decreases |trace|
  {
    if |trace| == 0 {
      assert trace + [command] == [command];
      RunFromSingle(s, command, reason);
      var next := Step(s, command, reason);
      assert [] + next.1 == next.1;
    } else {
      var first := Step(s, trace[0], reason);
      assert (trace + [command])[1..] == trace[1..] + [command];
      assert (trace + [command])[0] == trace[0];
      RunFromUnfold(s, trace, reason);
      RunFromUnfold(s, trace + [command], reason);
      RunFromExtends(first.0, trace[1..], command, reason);
      var before' := RunFrom(first.0, trace[1..], reason);
      var next := Step(before'.0, command, reason);
      assert first.1 + (before'.1 + next.1) == (first.1 + before'.1) + next.1;
    }
  }
}
