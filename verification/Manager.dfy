/** The engine manager: what it holds about the DHCP engine, against the history of what
    it said to the engine and heard back. */
module Manager {
  import opened Wrappers

  /** The engine's view of a config-set. `Lost` is any other failure: nothing learned. */
  datatype Answer = Took | Refused(text: string) | NoAnswer(text: string) | Lost

  /** What a poll's lease pages came to. */
  datatype Reading = Pages | Rejected(text: string) | Silent(text: string) | Cancelled

  type Config = string

  /** A render: the Dhcp4 object, or why it could not be built. */
  type Build = Result<Config, string>

  datatype Event =
    | Given(config: Config, answer: Answer)   // a config-set
    | Unbuilt(text: string)                   // a render that never reached the engine
    | Read                                    // a poll that got its leases
    | NotRead(text: string)                   // a poll the engine refused
    | Unread(text: string)                    // a poll the engine did not answer
    | Repaid                                  // a poll that took up a reconnect

  // ----------------------------------------------- what the history says, alone

  predicate Answered(e: Event) { e.Given? && (e.answer.Took? || e.answer.Refused?) }

  /** Event i gave the engine its current configuration. */
  ghost predicate LastGivenAt(h: seq<Event>, i: nat) {
    i < |h| && Answered(h[i]) && forall j | i < j < |h| :: !Answered(h[j])
  }

  /** The render is what the engine was last given, taken or refused. */
  ghost predicate GivenLast(h: seq<Event>, build: Build) {
    build.Ok? && exists i: nat :: LastGivenAt(h, i) && h[i].config == build.value
  }

  /** A verdict on a configuration: taken, or refused by the engine or by the renderer. */
  predicate Verdict(e: Event) { Answered(e) || e.Unbuilt? }

  function VerdictText(e: Event): string {
    match e
    case Given(_, Refused(t)) => t
    case Unbuilt(t) => t
    case _ => ""
  }

  ghost predicate LastVerdictAt(h: seq<Event>, i: nat) {
    i < |h| && Verdict(h[i]) && forall j | i < j < |h| :: !Verdict(h[j])
  }

  /** Whether an exchange heard from the engine; None if it says nothing about that. */
  function Heard(e: Event): Option<Result<(), string>> {
    match e
    case Given(_, Took) => Some(Ok(()))
    case Given(_, Refused(_)) => Some(Ok(()))
    case Given(_, NoAnswer(t)) => Some(Err(t))
    case Given(_, Lost) => None
    case Unbuilt(_) => None
    case Read => Some(Ok(()))
    case NotRead(_) => Some(Ok(()))
    case Unread(t) => Some(Err(t))
    case Repaid => None
  }

  /** Where the last exchange left the engine: nothing has answered yet, to begin with. */
  function Reach(h: seq<Event>): Result<(), string> {
    if h == [] then Err("")
    else if Heard(h[|h| - 1]).Some? then Heard(h[|h| - 1]).value
    else Reach(h[..|h| - 1])
  }

  /** Event i found the engine again, on a poll or in a refused config-set, after something
      had failed to reach it. */
  ghost predicate Reconnect(h: seq<Event>, i: nat) {
    && i < |h| && (h[i].Read? || h[i].NotRead? || (h[i].Given? && h[i].answer.Refused?))
    && Reach(h[..i]).Err? && Reach(h[..i]).error != ""
  }

  /** A reconnect nothing has taken up since. */
  ghost predicate Owed(h: seq<Event>) {
    exists i: nat | i < |h| :: Reconnect(h, i) && forall j | i <= j < |h| :: !h[j].Repaid?
  }

  /** The text the last poll that heard back was refused with. */
  function PollText(h: seq<Event>): string {
    if h == [] then ""
    else match h[|h| - 1]
      case Read => ""
      case NotRead(t) => t
      case _ => PollText(h[..|h| - 1])
  }

  // --------------------------------------------------------- one event longer

  lemma Longer(h: seq<Event>, e: Event)
    ensures (h + [e])[..|h|] == h
    ensures forall i | 0 <= i < |h| :: (h + [e])[i] == h[i] && (h + [e])[..i] == h[..i]
  {
  }

  lemma OwedNext(h: seq<Event>, e: Event)
    ensures Owed(h + [e]) <==> !e.Repaid? && (Owed(h) || Reconnect(h + [e], |h|))
  {
    var more := h + [e];
    Longer(h, e);
    hide Reach;
    if Owed(h) && !e.Repaid? {
      var i: nat :| i < |h| && Reconnect(h, i) && forall j | i <= j < |h| :: !h[j].Repaid?;
      assert Reconnect(more, i);
    }
    if Owed(more) {
      var i: nat :| i < |more| && Reconnect(more, i) && forall j | i <= j < |more| :: !more[j].Repaid?;
      assert !more[|h|].Repaid?;
      if i < |h| {
        assert Reconnect(h, i);
        assert forall j | i <= j < |h| :: h[j] == more[j];
      }
    }
  }

  // -------------------------------------------- what the manager keeps of it

  /** The manager's fields; `hash` is hashOf, taken as the configuration it identifies. */
  datatype Held = Held(down: bool, downErr: string, returned: bool, applyErr: string, pollErr: string,
      hash: Option<Config>)

  /** hash identifies the last configuration the engine accepted or refused. */
  ghost predicate HashOk(s: Held, h: seq<Event>) {
    && (s.hash.None? ==> forall i | 0 <= i < |h| :: !Answered(h[i]))
    && (s.hash.Some? ==> exists i: nat :: LastGivenAt(h, i) && h[i].config == s.hash.value)
  }

  /** applyErr is the text of the last verdict: only a config-set the engine took erases a
      refusal, only a later refusal replaces it. */
  ghost predicate RefusalOk(s: Held, h: seq<Event>) {
    || ((forall i | 0 <= i < |h| :: !Verdict(h[i])) && s.applyErr == "")
    || (exists i: nat :: LastVerdictAt(h, i) && s.applyErr == VerdictText(h[i]))
  }

  ghost predicate Matches(s: Held, h: seq<Event>) {
    && HashOk(s, h) && RefusalOk(s, h)
    && s.down == Reach(h).Err? && s.downErr == (if Reach(h).Err? then Reach(h).error else "")
    && s.pollErr == PollText(h)
    && s.returned == Owed(h)
  }

  /** cameBack. */
  predicate CameBack(s: Held) { s.down && s.downErr != "" }

  /** How one event moves the fields. */
  function Next(s: Held, e: Event): Held {
    match e
    case Given(c, Took) => s.(down := false, downErr := "", applyErr := "", hash := Some(c))
    case Given(c, Refused(t)) =>
      s.(returned := s.returned || CameBack(s), down := false, downErr := "", applyErr := t, hash := Some(c))
    case Given(_, NoAnswer(t)) => s.(down := true, downErr := t)
    case Given(_, Lost) => s
    case Unbuilt(t) => s.(applyErr := t)
    case Read => s.(returned := s.returned || CameBack(s), down := false, downErr := "", pollErr := "")
    case NotRead(t) => s.(returned := s.returned || CameBack(s), down := false, downErr := "", pollErr := t)
    case Unread(t) => s.(down := true, downErr := t)
    case Repaid => s.(returned := false)
  }

  lemma HashNext(s: Held, h: seq<Event>, e: Event)
    requires HashOk(s, h)
    ensures HashOk(Next(s, e), h + [e])
  {
    var more := h + [e];
    Longer(h, e);
    if Answered(e) {
      assert LastGivenAt(more, |h|);
    } else if s.hash.Some? {
      var i: nat :| LastGivenAt(h, i) && h[i].config == s.hash.value;
      assert LastGivenAt(more, i);
    }
  }

  lemma RefusalNext(s: Held, h: seq<Event>, e: Event)
    requires RefusalOk(s, h)
    ensures RefusalOk(Next(s, e), h + [e])
  {
    var more := h + [e];
    Longer(h, e);
    if Verdict(e) {
      assert LastVerdictAt(more, |h|);
    } else if i: nat :| LastVerdictAt(h, i) && s.applyErr == VerdictText(h[i]) {
      assert LastVerdictAt(more, i);
    }
  }

  lemma ReachNext(h: seq<Event>, e: Event)
    ensures Reach(h + [e]) == if Heard(e).Some? then Heard(e).value else Reach(h)
    ensures PollText(h + [e]) == (if e.Read? then "" else if e.NotRead? then e.text else PollText(h))
    ensures Reconnect(h + [e], |h|) <==>
      (e.Read? || e.NotRead? || (e.Given? && e.answer.Refused?)) && Reach(h).Err? && Reach(h).error != ""
  {
    Longer(h, e);
  }

  /** Every step keeps the fields true to the history. */
  lemma MatchesNext(s: Held, h: seq<Event>, e: Event)
    requires Matches(s, h)
    ensures Matches(Next(s, e), h + [e])
  {
    hide HashOk, RefusalOk, Owed, Reach, PollText, Reconnect;
    HashNext(s, h, e);
    RefusalNext(s, h, e);
    OwedNext(h, e);
    ReachNext(h, e);
  }

  // ------------------------------------------------------------- the manager

  class Manager {
    var down: bool
    var downErr: string
    var returned: bool
    var applyErr: string
    var pollErr: string
    var hash: Option<Config>
    ghost var history: seq<Event>

    ghost function State(): Held
      reads this
    {
      Held(down, downErr, returned, applyErr, pollErr, hash)
    }

    ghost predicate Valid()
      reads this
    {
      Matches(State(), history)
    }

    constructor ()
      ensures Valid() && history == [] && State() == Held(true, "", false, "", "", None)
    {
      down, downErr, returned, applyErr, pollErr, hash, history := true, "", false, "", "", None, [];
    }

    method NoteCameBack()
      modifies this`returned
      ensures returned == (old(returned) || CameBack(old(State())))
    {
      if down && downErr != "" {
        returned := true;
      }
    }

    method TakeReturned() returns (was: bool)
      requires Valid()
      modifies this`returned, this`history
      ensures Valid() && was == old(returned) == Owed(old(history)) && !returned
      ensures history == if was then old(history) + [Repaid] else old(history)
    {
      hide Matches;
      OwedIsReturned(State(), history);
      MatchesNext(State(), history, Repaid);
      was := returned;
      returned := false;
      if was {
        history := history + [Repaid];
      }
    }

    /** send: one config-set. */
    method Send(config: Config, answer: Answer)
      requires Valid()
      modifies this
      ensures Valid() && history == old(history) + [Given(config, answer)]
              && State() == Next(old(State()), Given(config, answer))
    {
      hide Matches;
      MatchesNext(State(), history, Given(config, answer));
      match answer {
        case Refused(t) =>
          NoteCameBack();
          down, downErr, applyErr := false, "", t;
          hash := Some(config);
        case NoAnswer(t) =>
          down, downErr := true, t;
        case Lost =>
        case Took =>
          hash := Some(config);
          down, downErr, applyErr := false, "", "";
      }
      history := history + [Given(config, answer)];
    }

    /** finish: the config-set when the render built, the refusal when it did not. */
    method Finish(build: Build, answer: Answer)
      requires Valid()
      modifies this
      ensures Valid() && history == old(history) + [Attempt(build, answer)]
              && State() == Next(old(State()), Attempt(build, answer))
    {
      match build {
        case Err(text) =>
          hide Matches;
          MatchesNext(State(), history, Unbuilt(text));
          applyErr := text;
          history := history + [Unbuilt(text)];
        case Ok(config) =>
          Send(config, answer);
      }
    }

    /** ApplyIfChanged: nothing is sent exactly when the render is the one the engine was
        last given, taken or refused. */
    method ApplyIfChanged(build: Build, answer: Answer) returns (sent: bool)
      requires Valid()
      modifies this
      ensures Valid()
      ensures sent <==> !GivenLast(old(history), build)
      ensures history == if sent then old(history) + [Attempt(build, answer)] else old(history)
      ensures State() == if sent then Next(old(State()), Attempt(build, answer)) else old(State())
    {
      if build.Ok? {
        HashIsLastGiven(State(), history, build.value);
      }
      hide Matches, LastGivenAt;
      if build.Ok? && hash == Some(build.value) {
        return false;
      }
      Finish(build, answer);
      return true;
    }

    /** Apply: unconditional, when the configuration could be read. */
    method Apply(input: Option<Build>, answer: Answer)
      requires Valid()
      modifies this
      ensures Valid()
      ensures history == if input.Some? then old(history) + [Attempt(input.value, answer)] else old(history)
      ensures State() == if input.Some? then Next(old(State()), Attempt(input.value, answer)) else old(State())
    {
      if input.Some? {
        Finish(input.value, answer);
      }
    }

    /** Poll: one cycle of the poll loop, as the history records it. A poll that reads the
        leases leaves no reconnect owed. */
    method Poll(p: PollInput)
      requires Valid()
      modifies this
      ensures Valid() && history == AfterPoll(old(history), p)
      ensures p.reading.Pages? ==> !Owed(history)
    {
      hide Matches;
      match p.reading {
        case Cancelled =>
        case Silent(t) =>
          MatchesNext(State(), history, Unread(t));
          down, downErr := true, t;
          history := history + [Unread(t)];
        case Rejected(t) =>
          MatchesNext(State(), history, NotRead(t));
          NoteCameBack();
          down, downErr, pollErr := false, "", t;
          history := history + [NotRead(t)];
        case Pages =>
          MatchesNext(State(), history, Read);
          NoteCameBack();
          down, downErr, pollErr := false, "", "";
          history := history + [Read];
          Converge(p.input, p.again, p.answer);
      }
    }

    /** The render at the end of a poll that got its leases. */
    method Converge(input: Option<Build>, again: Option<Build>, answer: Answer)
      requires Valid() && !down && downErr == ""
      modifies this
      ensures Valid() && !Owed(history)
      ensures if Owed(old(history))
              then history == old(history) + [Repaid] + (if again.Some? then [Attempt(again.value, answer)] else [])
              else if input.Some? && !GivenLast(old(history), input.value)
              then history == old(history) + [Attempt(input.value, answer)]
              else history == old(history)
    {
      hide Matches, Owed, GivenLast;
      var was := TakeReturned();
      if was {
        Apply(again, answer);
      } else if input.Some? {
        var sent := ApplyIfChanged(input.value, answer);
      }
      OwedIsReturned(State(), history);
    }
  }

  /** What one poll meets: its lease pages, the configuration it reads for the table, the one
      Apply reads when a reconnect is taken up, and the engine's answer to a config-set. */
  datatype PollInput = PollInput(reading: Reading, input: Option<Build>, again: Option<Build>, answer: Answer)

  /** The history after one poll: a reconnect is taken up with an unconditional render, if
      the configuration can be read; otherwise only a change is rendered. */
  ghost function AfterPoll(h: seq<Event>, p: PollInput): seq<Event> {
    match p.reading
    case Cancelled => h
    case Silent(t) => h + [Unread(t)]
    case Rejected(t) => h + [NotRead(t)]
    case Pages =>
      var read := h + [Read];
      if Owed(read) then read + [Repaid] + (if p.again.Some? then [Attempt(p.again.value, p.answer)] else [])
      else if p.input.Some? && !GivenLast(read, p.input.value) then read + [Attempt(p.input.value, p.answer)]
      else read
  }

  ghost function AfterPolls(h: seq<Event>, ps: seq<PollInput>): seq<Event>
    decreases |ps|
  {
    if ps == [] then h else AfterPolls(AfterPoll(h, ps[0]), ps[1..])
  }

  function Attempt(build: Build, answer: Answer): Event {
    match build
    case Ok(config) => Given(config, answer)
    case Err(text) => Unbuilt(text)
  }

  lemma OwedIsReturned(s: Held, h: seq<Event>)
    requires Matches(s, h)
    ensures s.returned == Owed(h)
  {
  }

  lemma HashIsLastGiven(s: Held, h: seq<Event>, c: Config)
    requires Matches(s, h)
    ensures s.hash == Some(c) <==> exists i: nat :: LastGivenAt(h, i) && h[i].config == c
  {
    if i: nat :| LastGivenAt(h, i) && h[i].config == c {
      assert s.hash.Some?;
      var j: nat :| LastGivenAt(h, j) && h[j].config == s.hash.value;
      assert i == j;
    }
  }

  // --------------------------------------------------- what that comes to, in words

  /** A standing refusal survives everything but a verdict. */
  lemma {:induction false} RefusalStands(s: Held, h: seq<Event>, more: seq<Event>, t: Held)
    requires Matches(s, h) && Matches(t, h + more) && forall i | 0 <= i < |more| :: !Verdict(more[i])
    ensures t.applyErr == s.applyErr
  {
    var all := h + more;
    if i: nat :| LastVerdictAt(h, i) && s.applyErr == VerdictText(h[i]) {
      assert LastVerdictAt(all, i);
      var j: nat :| LastVerdictAt(all, j) && t.applyErr == VerdictText(all[j]);
      assert i == j;
    } else {
      assert forall i | 0 <= i < |all| :: !Verdict(all[i]);
    }
  }

  /** A reconnect is repaid once: right after a poll takes it up, none is owed, and none
      will be until the engine is lost and found again. */
  lemma {:induction false} RepaidOnce(h: seq<Event>, more: seq<Event>)
    requires forall i | 0 <= i < |more| :: Heard(more[i]).Some? ==> Heard(more[i]).value.Ok?
    requires Reach(h).Ok?
    ensures Reach(h + [Repaid] + more).Ok? && !Owed(h + [Repaid] + more)
  {
    var base := h + [Repaid];
    if more == [] {
      Longer(h, Repaid);
      OwedNext(h, Repaid);
      assert base + more == base;
    } else {
      var rest, e := more[..|more| - 1], more[|more| - 1];
      RepaidOnce(h, rest);
      assert base + more == base + rest + [e];
      Longer(base + rest, e);
      OwedNext(base + rest, e);
    }
  }

  // ------------------------------------------------- a reconnect taken up for nothing

  /** The render a reconnect asks for got as far as the engine, or found it gone again. */
  predicate Delivered(p: PollInput) { p.again.Some? && p.again.value.Ok? && !p.answer.Lost? }

  /** A poll that finds the engine there and the configuration as it was, or not readable. */
  predicate Uneventful(p: PollInput, build: Build) {
    !p.reading.Silent? && (p.input.Some? ==> p.input.value == build)
  }

  /** Nothing owed, the engine within reach, `build` what it was last given. */
  ghost predicate Settled(h: seq<Event>, build: Build) {
    !Owed(h) && Reach(h).Ok? && GivenLast(h, build)
  }

  lemma GivenStays(h: seq<Event>, e: Event, build: Build)
    requires GivenLast(h, build) && !Answered(e)
    ensures GivenLast(h + [e], build)
  {
    Longer(h, e);
    var i: nat :| LastGivenAt(h, i) && h[i].config == build.value;
    assert LastGivenAt(h + [e], i);
  }

  lemma UneventfulPoll(h: seq<Event>, p: PollInput, build: Build)
    requires Settled(h, build) && Uneventful(p, build)
    ensures Settled(AfterPoll(h, p), build)
    ensures AfterPoll(h, p) == match p.reading case Pages => h + [Read] case Rejected(t) => h + [NotRead(t)] case _ => h
  {
    hide Owed, Reach, GivenLast, Reconnect, LastGivenAt;
    if p.reading.Pages? || p.reading.Rejected? {
      var e := if p.reading.Pages? then Read else NotRead(p.reading.text);
      GivenStays(h, e, build);
      OwedNext(h, e);
      ReachNext(h, e);
    }
  }

  /** Polls that send nothing. */
  lemma {:induction false} UneventfulPolls(h: seq<Event>, ps: seq<PollInput>, build: Build)
    requires Settled(h, build) && forall i | 0 <= i < |ps| :: Uneventful(ps[i], build)
    ensures var all := AfterPolls(h, ps);
            Settled(all, build) && h <= all && forall i | |h| <= i < |all| :: all[i].Read? || all[i].NotRead?
    decreases |ps|
  {
    hide Settled, AfterPoll, Uneventful;
    if ps != [] {
      UneventfulPoll(h, ps[0], build);
      UneventfulPolls(AfterPoll(h, ps[0]), ps[1..], build);
    }
  }

  /** The history right after a poll took a reconnect up without delivering its render. */
  lemma TakenUpForNothing(h: seq<Event>, p: PollInput, build: Build)
    requires p.reading.Pages? && Owed(h + [Read]) && GivenLast(h, build) && !Delivered(p)
    ensures Settled(AfterPoll(h, p), build)
  {
    hide Owed, Reach, GivenLast, Reconnect, LastGivenAt;
    GivenStays(h, Read, build);
    ReachNext(h, Read);
    var read := h + [Read];
    GivenStays(read, Repaid, build);
    OwedNext(read, Repaid);
    ReachNext(read, Repaid);
    if p.again.Some? {
      var e := Attempt(p.again.value, p.answer);
      GivenStays(read + [Repaid], e, build);
      OwedNext(read + [Repaid], e);
      ReachNext(read + [Repaid], e);
    } else {
      assert read + [Repaid] + [] == read + [Repaid];
    }
  }

  /** The debt is paid off whether or not anything reached the engine. If the configuration
      could not be read, or not be built, or the config-set failed with no verdict, the engine
      that came back is sent nothing by any later poll, until the configuration changes or
      the engine is lost once more; if it was delivered, the engine ruled on it, or is lost. */
  lemma {:induction false} UnsentReconnect(h: seq<Event>, p: PollInput, ps: seq<PollInput>, build: Build)
    requires p.reading.Pages? && Owed(h + [Read]) && GivenLast(h, build)
    requires forall i | 0 <= i < |ps| :: Uneventful(ps[i], build)
    ensures var first := AfterPoll(h, p);
            var all := AfterPolls(first, ps);
            if Delivered(p) then Answered(first[|first| - 1]) || Reach(first).Err?
            else first <= all && !Owed(all) && forall i | |first| <= i < |all| :: !all[i].Given? && !all[i].Unbuilt?
  {
    hide Owed, Reach, GivenLast, Reconnect, LastGivenAt;
    if Delivered(p) {
      ReachNext(h + [Read] + [Repaid], Attempt(p.again.value, p.answer));
    } else {
      TakenUpForNothing(h, p, build);
      UneventfulPolls(AfterPoll(h, p), ps, build);
    }
  }

  // ----------------------------------------------------------- the poll converges

  lemma GivenNow(h: seq<Event>, c: Config, answer: Answer)
    requires answer.Took? || answer.Refused?
    ensures GivenLast(h + [Given(c, answer)], Ok(c))
  {
    assert LastGivenAt(h + [Given(c, answer)], |h|);
  }

  /** A poll that reads its leases and the configuration, with an engine that rules on what it is
      sent, leaves the engine last given exactly what the configuration renders to; and it sends
      nothing when it was, unless a reconnect is owed. */
  lemma PollConverges(h: seq<Event>, p: PollInput)
    requires p.reading.Pages? && p.input.Some? && p.again == p.input && p.input.value.Ok?
    requires p.answer.Took? || p.answer.Refused?
    ensures GivenLast(AfterPoll(h, p), p.input.value)
    ensures !Owed(h + [Read]) && GivenLast(h, p.input.value) ==> AfterPoll(h, p) == h + [Read]
    ensures Owed(h + [Read]) || !GivenLast(h, p.input.value) ==>
            var after := AfterPoll(h, p);
            |after| > 0 && after[|after| - 1] == Given(p.input.value.value, p.answer)
  {
    hide Owed;
    var read := h + [Read];
    GivenNow(read, p.input.value.value, p.answer);
    GivenNow(read + [Repaid], p.input.value.value, p.answer);
    if GivenLast(h, p.input.value) {
      GivenStays(h, Read, p.input.value);
    }
    if GivenLast(read, p.input.value) {
      Longer(h, Read);
      var i: nat :| LastGivenAt(read, i) && read[i].config == p.input.value.value;
      assert LastGivenAt(h, i);
    }
  }

  /** A render that cannot be built is recorded as refused on every poll that meets it; a poll the
      engine does not answer, or refuses, or that is cancelled, sends nothing. */
  lemma PollRecords(h: seq<Event>, p: PollInput)
    ensures p.reading.Pages? && !Owed(h + [Read]) && p.input.Some? && p.input.value.Err? ==>
            AfterPoll(h, p) == h + [Read] + [Unbuilt(p.input.value.error)]
    ensures p.reading.Silent? ==> AfterPoll(h, p) == h + [Unread(p.reading.text)]
    ensures p.reading.Rejected? ==> AfterPoll(h, p) == h + [NotRead(p.reading.text)]
    ensures p.reading.Cancelled? ==> AfterPoll(h, p) == h
  {
  }
}
