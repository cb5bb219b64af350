/**
  What a worker keeps of a backfill: the channel with its result, and the handle it has come to. Both
  outlive runs and changes of the owner, and neither says which job it belongs to.

  Handles count the rows of a table from its first one; a handle is covered if all rows before it
  have their entries.
 */
module ReorgResults {
  import opened Options

  /** How a backfill ends; only the owner goes on to a good end. */
  datatype Outcome = Filled | Failed

  /**
    No backfill, or that of `job`: running, at `handle`, or with its result in the channel. `whole`
    tells whether the handle it started with was covered.
   */
  datatype Channel =
    | Idle
    | Running(job: nat, handle: nat, whole: bool)
    | Result(job: nat, outcome: Outcome, handle: nat)

  /**
    The worker of one server; the job at the head of the queue, with the handle saved for it; how far
    each job is covered; and the jobs filled and told done so far.
   */
  datatype State = State(owner: bool, channel: Channel, head: nat, saved: nat, covered: map<nat, nat>,
                         filled: set<nat>, told: set<nat>)

  datatype Event =
    | Run                        // the worker runs the head job, which is being reorganized
    | Advance(handle: nat)       // its backfill goes on
    | Finish(outcome: Outcome)   // and comes to an end
    | Lose                       // another server becomes the owner
    | Gain
    | OtherAdvance(handle: nat)  // the owner on another server goes on with the head job, and saves its handle
    | OtherDone                  // the same, and it finishes the job
    | GiveUp                     // the owner, here or there, has rolled the head job back

  function Covered(s: State, job: nat): nat {
    if job in s.covered then s.covered[job] else 0
  }

  function Cover(s: State, job: nat, handle: nat): map<nat, nat> {
    if handle <= Covered(s, job) then s.covered else s.covered[job := handle]
  }

  /** The channel is that of a job that is not at the head any more. */
  predicate Stale(s: State) {
    !s.channel.Idle? && s.channel.job != s.head
  }

  /** A job whose own backfill is under way is rolled back only after its result has been read. */
  predicate Enabled(s: State, e: Event) {
    match e
    case Run => s.owner
    case Advance(h) => s.channel.Running? && s.channel.handle <= h
    case Finish(o) => s.channel.Running? && (o.Filled? ==> s.owner)
    case Lose => s.owner
    case Gain => !s.owner
    case OtherAdvance(h) => !s.owner && s.saved <= h
    case OtherDone => !s.owner
    case GiveUp => s.owner ==> s.channel.Idle? || Stale(s)
  }

  function NextJob(s: State): State {
    s.(head := s.head + 1, saved := 0)
  }

  /** One run: it starts a backfill if there is none, reads the result if there is one, and otherwise saves the handle. */
  function RunHead(s: State): State {
    match s.channel
    case Idle => s.(channel := Running(s.head, s.saved, s.saved <= Covered(s, s.head)))
    case Running(_, h, _) => s.(saved := h)
    case Result(_, Failed, _) => s.(channel := Idle)
    case Result(_, Filled, _) => NextJob(s.(channel := Idle, told := s.told + {s.head}))
  }

  /** A backfill that fails saves its handle for its own job. */
  function FinishRun(s: State, o: Outcome): State
    requires s.channel.Running?
  {
    var c := s.channel;
    s.(channel := Result(c.job, o, c.handle),
       filled := if o.Filled? && c.whole then s.filled + {c.job} else s.filled,
       saved := if o.Failed? && c.job == s.head then c.handle else s.saved)
  }

  function Step(s: State, e: Event): State
    requires Enabled(s, e)
  {
    match e
    case Run => RunHead(s)
    case Advance(h) =>
      s.(channel := Running(s.channel.job, h, s.channel.whole), covered := if s.channel.whole then Cover(s, s.channel.job, h) else s.covered)
    case Finish(o) => FinishRun(s, o)
    case Lose => s.(owner := false)
    case Gain => s.(owner := true)
    case OtherAdvance(h) => s.(saved := h, covered := if s.saved <= Covered(s, s.head) then Cover(s, s.head, h) else s.covered)
    case OtherDone =>
      NextJob(s.(told := s.told + {s.head}, filled := if s.saved <= Covered(s, s.head) then s.filled + {s.head} else s.filled))
    case GiveUp => NextJob(s)
  }

  ghost predicate Legal(s: State, es: seq<Event>)
    decreases |es|
  {
    es == [] || (Enabled(s, es[0]) && Legal(Step(s, es[0]), es[1..]))
  }

  ghost function After(s: State, es: seq<Event>): State
    requires Legal(s, es)
    decreases |es|
  {
    if es == [] then s else After(Step(s, es[0]), es[1..])
  }

  const INIT := State(true, Idle, 0, 0, map[], {}, {})

  // ---------- what must hold ----------

  /** Every job told done has been filled, and the handle saved for the head job is covered. */
  ghost predicate Sound(s: State) {
    s.told <= s.filled && s.saved <= Covered(s, s.head)
  }

  /** Jobs come one after the other; the head job is filled only if the result says so; no backfill began too far on. */
  ghost predicate Inv(s: State) {
    && Sound(s) && (forall j :: j in s.filled ==> j <= s.head) && (!s.channel.Idle? ==> s.channel.job <= s.head)
    && (s.channel.Running? ==> s.channel.whole && s.channel.handle <= Covered(s, s.channel.job))
    && (s.channel.Result? && s.channel.outcome.Filled? ==> s.channel.job in s.filled)
    && (s.head in s.filled ==> s.channel.Result? && s.channel.job == s.head && s.channel.outcome.Filled?)
  }

  /** A run that reads the good result of another job. */
  predicate Misreads(s: State, e: Event) {
    e.Run? && Stale(s) && s.channel.Result? && s.channel.outcome.Filled?
  }

  /** A run that saves the handle of another job, and rows of the head job before it have no entries. */
  predicate Missaves(s: State, e: Event) {
    e.Run? && Stale(s) && s.channel.Running? && s.channel.handle > Covered(s, s.head)
  }

  predicate Mistakes(s: State, e: Event) {
    Misreads(s, e) || Missaves(s, e)
  }

  /** A step keeps both promises if and only if it is no such run. */
  lemma StepKeepsInv(s: State, e: Event)
    requires Inv(s) && Enabled(s, e)
    ensures Sound(Step(s, e)) <==> !Mistakes(s, e)
    ensures !Mistakes(s, e) ==> Inv(Step(s, e))
  {
  }

  ghost predicate AlwaysSound(s: State, es: seq<Event>)
    requires Legal(s, es)
    decreases |es|
  {
    Sound(s) && (es == [] || AlwaysSound(Step(s, es[0]), es[1..]))
  }

  ghost predicate NeverMistaken(s: State, es: seq<Event>)
    requires Legal(s, es)
    decreases |es|
  {
    es == [] || (!Mistakes(s, es[0]) && NeverMistaken(Step(s, es[0]), es[1..]))
  }

  /**
    Main result: along a whole run every job told done has been filled and every saved handle is covered,
    if and only if no run reads the good result, or saves a handle too far on, of another job.
   */
  lemma {:induction false} RunIsSafe(s: State, es: seq<Event>)
    requires Inv(s) && Legal(s, es)
    ensures AlwaysSound(s, es) <==> NeverMistaken(s, es)
    decreases |es|
  {
    if es == [] {
    } else {
      StepKeepsInv(s, es[0]);
      if Mistakes(s, es[0]) {
        assert !Sound(Step(s, es[0]));
      } else {
        RunIsSafe(Step(s, es[0]), es[1..]);
      }
    }
  }

  /** Whenever the server becomes the owner its channel is free, or still that of the head job. */
  ghost predicate FreshGains(s: State, es: seq<Event>)
    requires Legal(s, es)
    decreases |es|
  {
    es == [] || ((es[0].Gain? ==> !Stale(s)) && FreshGains(Step(s, es[0]), es[1..]))
  }

  lemma {:induction false} FreshGainsAreSafe(s: State, es: seq<Event>)
    requires Inv(s) && Legal(s, es) && (s.owner ==> !Stale(s)) && FreshGains(s, es)
    ensures AlwaysSound(s, es)
    decreases |es|
  {
    if es == [] {
    } else {
      StepKeepsInv(s, es[0]);
      FreshGainsAreSafe(Step(s, es[0]), es[1..]);
    }
  }

  // ---------- a server that becomes the owner over an old backfill ----------

  lemma Chain(s: State, e: Event, es: seq<Event>)
    requires Enabled(s, e) && Legal(Step(s, e), es)
    ensures Legal(s, [e] + es) && After(s, [e] + es) == After(Step(s, e), es)
  {
    assert ([e] + es)[1..] == es;
  }

  /** With a good result in the channel, the first run tells a job done that nobody has filled. */
  lemma StaleGainIsNotSafe(s: State)
    requires Inv(s) && !s.owner && Stale(s) && s.channel.Result? && s.channel.outcome.Filled?
    ensures Legal(s, [Gain] + [Run])
    ensures var t := After(s, [Gain] + [Run]); s.head in t.told && s.head !in t.filled
  {
    var t := Step(s, Gain);
    Chain(t, Run, []);
    assert [Run] + [] == [Run];
    Chain(s, Gain, [Run]);
  }

  /** The old backfill fails, and a new one starts at the handle that it has left. */
  const GOES_ON: seq<Event> := [Gain, Run, Finish(Failed), Run, Run, Finish(Filled), Run]

  /** With a backfill under way that is too far on, the head job is told done and has rows without entries. */
  lemma StaleHandleSkipsRows(s: State)
    requires Inv(s) && !s.owner && Stale(s) && s.channel.Running? && s.channel.handle > Covered(s, s.head)
    ensures Legal(s, GOES_ON)
    ensures var t := After(s, GOES_ON); s.head in t.told && s.head !in t.filled && Covered(t, s.head) < s.channel.handle
  {
    var s1 := Step(s, Gain);
    var s2 := Step(s1, Run);
    var s3 := Step(s2, Finish(Failed));
    var s4 := Step(s3, Run);
    var s5 := Step(s4, Run);
    var s6 := Step(s5, Finish(Filled));
    var s7 := Step(s6, Run);
    Chain(s6, Run, []);
    Chain(s5, Finish(Filled), [Run]);
    Chain(s4, Run, [Finish(Filled), Run]);
    Chain(s3, Run, [Run, Finish(Filled), Run]);
    Chain(s2, Finish(Failed), GOES_ON[3..]);
    Chain(s1, Run, GOES_ON[2..]);
    Chain(s, Gain, GOES_ON[1..]);
  }

  const FAILS_AND_RETRIES: seq<Event> := [Finish(Failed), Run, Run]

  /** After a failure the job is not told done, and its next backfill starts where the failed one had come to. */
  lemma FailureResumes(s: State)
    requires s.owner && s.channel.Running? && s.channel.job == s.head
    ensures Legal(s, FAILS_AND_RETRIES)
    ensures var t := After(s, FAILS_AND_RETRIES);
            t.told == s.told && t.head == s.head && t.channel.Running? && t.channel.job == s.head && t.channel.handle == s.channel.handle
  {
    var s1 := Step(s, Finish(Failed));
    var s2 := Step(s1, Run);
    Chain(s2, Run, []);
    Chain(s1, Run, [Run]);
    Chain(s, Finish(Failed), FAILS_AND_RETRIES[1..]);
  }

  const OVERTAKEN: seq<Event> := [Run, Advance(5), Lose, OtherDone]

  /** Another server finishes the job while its backfill runs on here. */
  lemma BackfillOutlivesOwner()
    ensures Legal(INIT, OVERTAKEN)
    ensures var s := After(INIT, OVERTAKEN); Inv(s) && !s.owner && Stale(s) && s.channel.Running? && s.channel.handle > Covered(s, s.head)
  {
    var s1 := Step(INIT, Run);
    var s2 := Step(s1, Advance(5));
    var s3 := Step(s2, Lose);
    Chain(s3, OtherDone, []);
    Chain(s2, Lose, [OtherDone]);
    Chain(s1, Advance(5), OVERTAKEN[2..]);
    Chain(INIT, Run, OVERTAKEN[1..]);
  }

  const FINISHED: seq<Event> := [Run, Finish(Filled), Lose, OtherDone]

  /** The same, but its result is there already. */
  lemma ResultOutlivesOwner()
    ensures Legal(INIT, FINISHED)
    ensures var s := After(INIT, FINISHED); Inv(s) && !s.owner && Stale(s) && s.channel == Result(0, Filled, 0)
  {
    var s1 := Step(INIT, Run);
    var s2 := Step(s1, Finish(Filled));
    var s3 := Step(s2, Lose);
    Chain(s3, OtherDone, []);
    Chain(s2, Lose, [OtherDone]);
    Chain(s1, Finish(Filled), FINISHED[2..]);
    Chain(INIT, Run, FINISHED[1..]);
  }

  // ---------- the code ----------

  /** What the handler of the job gets: the end of a backfill, or a timeout after which it tries again. */
  datatype Answer = Ended(outcome: Outcome) | Timeout

  class ReorgCtx {
    var started: bool
    var done: Option<Outcome>
    var doneHandle: nat

    /** The fields as the machine has them; it also knows whose backfill it is. */
    ghost predicate Shows(c: Channel)
      reads this
    {
      match c
      case Idle => !started && done == None
      case Running(_, h, _) => started && done == None && doneHandle == h
      case Result(_, o, h) => started && done == Some(o) && doneHandle == h
    }

    /** One run for the job at the head, whose saved handle is `startHandle`; `saved` is the one it saves. */
    method RunReorgJob(ghost s: State, startHandle: nat) returns (r: Answer, saved: nat)
      requires Shows(s.channel) && s.saved == startHandle
      modifies this
      ensures Shows(RunHead(s).channel)
      ensures s.channel.Result? ==> r == Ended(s.channel.outcome)
      ensures !s.channel.Result? ==> r == Timeout
      ensures saved == if s.channel.Running? then s.channel.handle else startHandle
      ensures r == Ended(Filled) ==> RunHead(s).head == s.head + 1 && RunHead(s).told == s.told + {s.head}
      ensures r != Ended(Filled) ==> RunHead(s) == s.(channel := RunHead(s).channel, saved := saved)
    {
      saved := startHandle;
      if !started {
        started, doneHandle := true, startHandle;
      }
      if done.Some? {
        r := Ended(done.value);
        started, done, doneHandle := false, None, 0;
      } else {
        saved := doneHandle;
        r := Timeout;
      }
    }
  }
}
