/** The device session (`backend/app/device_session.py`): one worker thread over a priority queue of jobs, and the
    back-off between connection attempts. */
module DeviceWorker {
  import opened Common

  // ----- connection attempts -----

  datatype Failure = HostKeyChanged | CredentialsMissing | Generic

  datatype Reply = Connected | Refused(why: Failure)

  datatype Attempt = Attempt(time: nat, reply: Reply)

  /** Seconds to wait after the next generic failure is twice `backoff`; no attempt is made before `next`. */
  datatype Pace = Pace(backoff: nat, next: nat)

  const START: nat := 2

  const MAX: nat := 60

  function Min(a: nat, b: nat): nat {
    if a <= b then a else b
  }

  function Paced(p: Pace, a: Attempt): Pace {
    match a.reply
    case Connected => Pace(START, 0)
    case Refused(Generic) => Pace(Min(MAX, 2 * p.backoff), a.time + Min(MAX, 2 * p.backoff))
    case Refused(_) => Pace(p.backoff, a.time + MAX)
  }

  function After(h: seq<Attempt>): Pace {
    if h == [] then Pace(START, 0) else Paced(After(h[..|h| - 1]), h[|h| - 1])
  }

  /** Every attempt was made no earlier than those before it allowed. */
  predicate Legal(h: seq<Attempt>) {
    h == [] || (Legal(h[..|h| - 1]) && After(h[..|h| - 1]).next <= h[|h| - 1].time)
  }

  predicate IsGeneric(a: Attempt) {
    a.reply == Refused(Generic)
  }

  function Generics(h: seq<Attempt>): nat {
    if h == [] then 0 else Generics(h[..|h| - 1]) + (if IsGeneric(h[|h| - 1]) then 1 else 0)
  }

  function Pow2(n: nat): nat {
    if n == 0 then 1 else 2 * Pow2(n - 1)
  }

  /** The pause after the k-th generic failure in a row. */
  function Pause(k: nat): nat {
    Min(MAX, Pow2(k + 1))
  }

  function Pauses(k: nat): nat {
    if k == 0 then 0 else Pauses(k - 1) + Pause(k)
  }

  /** `s` is where the current spell without a success began. */
  predicate SpellFrom(h: seq<Attempt>, s: nat) {
    s <= |h| && (s == 0 || h[s - 1].reply.Connected?) && forall i :: s <= i < |h| ==> h[i].reply.Refused?
  }

  /** `f` is the first generic failure of that spell. */
  predicate FirstGeneric(h: seq<Attempt>, s: nat, f: nat) {
    s <= f < |h| && IsGeneric(h[f]) && forall i :: s <= i < f ==> !IsGeneric(h[i])
  }

  /** Whatever came before the last success no longer matters. */
  lemma {:induction false} PaceFollowsSpell(h: seq<Attempt>, s: nat)
    requires SpellFrom(h, s)
    ensures After(h).backoff == Pause(Generics(h[s..]))
  {
    if s == |h| {
      assert Pow2(1) == 2;
    } else {
      var init := h[..|h| - 1];
      PaceFollowsSpell(init, s);
      assert h[s..][..|h[s..]| - 1] == init[s..];
      assert Pow2(Generics(init[s..]) + 2) == 2 * Pow2(Generics(init[s..]) + 1);
    }
  }

  lemma {:induction false} NoneIsZero(h: seq<Attempt>)
    requires forall i :: 0 <= i < |h| ==> !IsGeneric(h[i])
    ensures Generics(h) == 0
  {
    if h != [] {
      NoneIsZero(h[..|h| - 1]);
    }
  }

  lemma {:induction false} NextFollowsSpell(h: seq<Attempt>, s: nat, f: nat)
    requires Legal(h) && SpellFrom(h, s) && FirstGeneric(h, s, f)
    ensures Generics(h[s..]) >= 1
    ensures After(h).next >= h[f].time + Pauses(Generics(h[s..]))
  {
    var init, k := h[..|h| - 1], Generics(h[s..|h| - 1]);
    assert h[s..][..|h[s..]| - 1] == init[s..] == h[s..|h| - 1];
    PaceFollowsSpell(h, s);
    if f == |h| - 1 {
      NoneIsZero(init[s..]);
      assert Pauses(1) == Pauses(0) + Pause(1);
    } else {
      NextFollowsSpell(init, s, f);
    }
  }

  /** k generic failures since the last success span at least the sum of min(60, 2^(i+1)) for i in 1..k-1,
      however many refusals of other kinds lie between them. */
  lemma FailuresSpan(h: seq<Attempt>, s: nat, f: nat)
    requires Legal(h) && SpellFrom(h, s) && FirstGeneric(h, s, f) && IsGeneric(h[|h| - 1])
    ensures h[|h| - 1].time >= h[f].time + Pauses(Generics(h[s..]) - 1)
  {
    var init := h[..|h| - 1];
    assert h[s..][..|h[s..]| - 1] == init[s..];
    if f == |h| - 1 {
      NoneIsZero(init[s..]);
    } else {
      NextFollowsSpell(init, s, f);
    }
  }

  /** A success clears the way at once, a refusal never blocks the next attempt for more than a minute, and one
      over credentials or a host key blocks it for exactly that. */
  lemma {:induction false} PauseBounds(h: seq<Attempt>)
    requires h != []
    ensures START <= After(h).backoff <= MAX
    ensures h[|h| - 1].reply.Connected? <==> After(h).next == 0
    ensures h[|h| - 1].reply.Refused? ==> h[|h| - 1].time + 2 * START <= After(h).next <= h[|h| - 1].time + MAX
    ensures h[|h| - 1].reply.Refused? && !IsGeneric(h[|h| - 1]) ==> After(h).next == h[|h| - 1].time + MAX
  {
    if |h| > 1 {
      PauseBounds(h[..|h| - 1]);
    }
  }

  // ----- jobs -----

  /** A job's number identifies it and its future. */
  datatype Job = Job(priority: nat, number: nat, shutdown: bool)

  predicate Before(a: Job, b: Job) {
    a.priority < b.priority || (a.priority == b.priority && a.number < b.number)
  }

  predicate Distinguished(a: Job, b: Job) {
    a.number == b.number ==> a == b
  }

  predicate Numbered(jobs: set<Job>) {
    forall a, b {:trigger Distinguished(a, b)} :: a in jobs && b in jobs ==> Distinguished(a, b)
  }

  predicate IsLeast(job: Job, queue: set<Job>) {
    job in queue && forall j :: j in queue ==> j == job || Before(job, j)
  }

  lemma {:induction false} HasLeast(queue: set<Job>)
    requires queue != {} && Numbered(queue)
    ensures exists job :: IsLeast(job, queue)
  {
    var x :| x in queue;
    if queue == {x} {
      assert IsLeast(x, queue);
    } else {
      var rest := queue - {x};
      assert rest == {} ==> queue == {x};
      HasLeast(rest);
      var least :| IsLeast(least, rest);
      assert Distinguished(x, least);
      if Before(x, least) {
        assert forall j :: j in rest ==> j == least || Before(least, j);
        assert forall j :: j in queue ==> j == x || j in rest;
        assert IsLeast(x, queue);
      } else {
        assert IsLeast(least, queue);
      }
    }
  }

  /** How a future was settled. */
  datatype Outcome = Returned | Raised | Unavailable(why: Failure) | ShuttingDown

  datatype Settlement = Settlement(job: Job, outcome: Outcome)

  /** A job leaving the queue, and what was queued at that moment. */
  datatype Take = Take(job: Job, queue: set<Job>)

  function Jobs(settled: seq<Settlement>): set<Job> {
    set s | s in settled :: s.job
  }

  predicate NoneTwice(settled: seq<Settlement>) {
    forall i, j :: 0 <= i < j < |settled| ==> settled[i].job != settled[j].job
  }

  /** Each job taken was the least queued, and only a take removes a job. */
  predicate InOrder(takes: seq<Take>) {
    (forall i :: 0 <= i < |takes| ==> IsLeast(takes[i].job, takes[i].queue)) &&
    (forall i :: 0 <= i < |takes| - 1 ==> takes[i].queue - {takes[i].job} <= takes[i + 1].queue)
  }

  lemma {:induction false} StillWaiting(takes: seq<Take>, job: Job, i: nat, j: nat)
    requires InOrder(takes) && i <= j < |takes|
    requires job in takes[i].queue
    requires forall k :: i <= k < j ==> takes[k].job != job
    ensures job in takes[j].queue
    decreases j - i
  {
    if i < j {
      StillWaiting(takes, job, i + 1, j);
    }
  }

  /** While a job waits, only jobs more urgent than it, or as urgent and numbered earlier, are taken. */
  lemma OnlyMoreUrgentOvertake(takes: seq<Take>, i: nat, m: nat, j: nat)
    requires InOrder(takes) && i <= m < j < |takes|
    requires takes[j].job in takes[i].queue
    requires forall k :: i <= k < j ==> takes[k].job != takes[j].job
    ensures Before(takes[m].job, takes[j].job)
  {
    StillWaiting(takes, takes[j].job, i, m);
  }

  datatype JobRun = Succeeds | HostKeyFails | Fails(aliveAfter: bool)

  /** What the world does during one turn of the worker: the jobs other threads queue before it looks, the stop
      flag as it reads it, and how the device answers. */
  datatype Turn = Turn(arrivals: set<Job>, stopping: bool, now: nat, idleTooLong: bool, aliveWhenIdle: bool,
                       alive: bool, reply: Reply, run: JobRun)

  /** Numbers are handed out once each, in any interleaving with the queueing. */
  predicate FreshTurns(put: set<Job>, turns: seq<Turn>)
    decreases |turns|
  {
    turns == [] ||
    (Numbered(put + turns[0].arrivals) && put !! turns[0].arrivals && FreshTurns(put + turns[0].arrivals, turns[1..]))
  }

  function Arrived(turns: seq<Turn>): set<Job> {
    if turns == [] then {} else turns[0].arrivals + Arrived(turns[1..])
  }

  /** What has been put once the first `used` turns are over. */
  ghost predicate Reached(turns: seq<Turn>, used: nat, before: set<Job>, put: set<Job>) {
    used <= |turns| && put == before + Arrived(turns[..used]) && FreshTurns(put, turns[used..])
  }

  lemma {:induction false} ArrivedAppend(turns: seq<Turn>, turn: Turn)
    ensures Arrived(turns + [turn]) == Arrived(turns) + turn.arrivals
  {
    if turns == [] {
      assert [turn][1..] == [];
    } else {
      assert (turns + [turn])[1..] == turns[1..] + [turn];
      ArrivedAppend(turns[1..], turn);
    }
  }

  lemma ArrivedNext(turns: seq<Turn>, n: nat)
    requires n < |turns|
    ensures Arrived(turns[..n + 1]) == Arrived(turns[..n]) + turns[n].arrivals
  {
    ArrivedAppend(turns[..n], turns[n]);
    assert turns[..n + 1] == turns[..n] + [turns[n]];
  }

  lemma Advance(turns: seq<Turn>, used: nat, before: set<Job>, put: set<Job>)
    requires Reached(turns, used, before, put) && used < |turns|
    ensures Numbered(put + turns[used].arrivals) && put !! turns[used].arrivals
    ensures Reached(turns, used + 1, before, put + turns[used].arrivals)
  {
    assert turns[used..][1..] == turns[used + 1..];
    ArrivedNext(turns, used);
  }

  /** What was settled since tells its caller that the application is shutting down. */
  predicate OnlyShutDown(before: seq<Settlement>, after: seq<Settlement>) {
    before <= after && forall i :: |before| <= i < |after| ==> after[i].outcome == ShuttingDown
  }

  lemma {:induction false} ArrivedPrefix(turns: seq<Turn>, n: nat)
    requires n <= |turns|
    ensures Arrived(turns[..n]) <= Arrived(turns)
  {
    if n > 0 {
      assert turns[..n][1..] == turns[1..][..n - 1];
      ArrivedPrefix(turns[1..], n - 1);
    }
  }

  // ----- what the loop gets done -----

  /** What each turn settled, if anything. */
  type Log = seq<Option<Settlement>>

  /** The client and the attempts made to get one. */
  datatype Line = Line(client: bool, attempts: seq<Attempt>)

  /** With a client that is alive, nothing; else an attempt, unless the pause is not over. */
  function Ensured(line: Line, now: nat, alive: bool, reply: Reply): Line {
    if line.client && alive then line
    else if now < After(line.attempts).next then line.(client := false)
    else Line(reply.Connected?, line.attempts + [Attempt(now, reply)])
  }

  /** The order to stop is acknowledged. Any other job runs to its end when there is a client, and is told why there
      is none when there is not. */
  predicate Answers(turn: Turn, line: Line, s: Settlement) {
    if s.job.shutdown then s.outcome == Returned
    else
      var next := Ensured(line, turn.now, turn.alive, turn.reply);
      if next.client then s.outcome == if turn.run.Succeeds? then Returned else Raised
      else
        next.attempts != [] && next.attempts[|next.attempts| - 1].reply.Refused? &&
        s.outcome == Unavailable(next.attempts[|next.attempts| - 1].reply.why)
  }

  /** The line after a turn: a failed job may lose the client, an idle one may be found dead. */
  function LineAfter(line: Line, turn: Turn, entry: Option<Settlement>): Line {
    match entry
    case None =>
      if line.client && turn.idleTooLong && !turn.aliveWhenIdle then Ensured(line, turn.now, turn.alive, turn.reply)
      else line
    case Some(s) =>
      if s.job.shutdown then line
      else
        var next := Ensured(line, turn.now, turn.alive, turn.reply);
        next.(client := next.client && (turn.run.Succeeds? || (turn.run.Fails? && turn.run.aliveAfter)))
  }

  function LineAt(line: Line, turns: seq<Turn>, log: Log): Line
    requires |log| <= |turns|
  {
    if log == [] then line
    else
      var n := |log| - 1;
      LineAfter(LineAt(line, turns, log[..n]), turns[n], log[n])
  }

  function Settlements(log: Log): seq<Settlement> {
    if log == [] then []
    else
      var last := log[|log| - 1];
      Settlements(log[..|log| - 1]) + (if last.Some? then [last.value] else [])
  }

  /** The jobs left queued after some turns. */
  ghost function Left(turns: seq<Turn>, queue: set<Job>, log: Log): set<Job>
    requires |log| <= |turns|
  {
    queue + Arrived(turns[..|log|]) - Jobs(Settlements(log))
  }

  /** The jobs a turn finds queued: put by then, and not settled by an earlier turn. */
  ghost function Waiting(turns: seq<Turn>, queue: set<Job>, earlier: Log): set<Job>
    requires |earlier| < |turns|
  {
    queue + Arrived(turns[..|earlier| + 1]) - Jobs(Settlements(earlier))
  }

  /** A turn that finds a job queued answers the least one. */
  ghost predicate Fits(turns: seq<Turn>, queue: set<Job>, line: Line, earlier: Log,
                       entry: Option<Settlement>)
    requires |earlier| < |turns|
  {
    match entry
    case None => Waiting(turns, queue, earlier) == {}
    case Some(s) =>
      && IsLeast(s.job, Waiting(turns, queue, earlier))
      && Answers(turns[|earlier|], LineAt(line, turns, earlier), s)
  }

  /** One entry for each turn. */
  ghost predicate Served(turns: seq<Turn>, queue: set<Job>, line: Line, log: Log) {
    |log| <= |turns| && forall k :: 0 <= k < |log| ==> Fits(turns, queue, line, log[..k], log[k])
  }

  predicate IsOrder(entry: Option<Settlement>) {
    entry.Some? && entry.value.job.shutdown
  }

  predicate RunsSoFar(turns: seq<Turn>, log: Log)
    requires |log| <= |turns|
  {
    && (forall k :: 0 <= k < |log| ==> !turns[k].stopping)
    && (forall k :: 0 <= k < |log| - 1 ==> !IsOrder(log[k]))
  }

  /** The loop goes on until it reads the stop flag or takes the order to stop, and no longer. */
  predicate RunsUntilStopped(turns: seq<Turn>, log: Log, stopped: bool)
    requires |log| <= |turns|
  {
    && RunsSoFar(turns, log)
    && (stopped <==> (|log| < |turns| && turns[|log|].stopping) || (log != [] && IsOrder(log[|log| - 1])))
    && (stopped || |log| == |turns|)
  }

  lemma ServedNext(turns: seq<Turn>, queue: set<Job>, line: Line, log: Log, next: Option<Settlement>)
    requires Served(turns, queue, line, log) && |log| < |turns| && Fits(turns, queue, line, log, next)
    ensures Served(turns, queue, line, log + [next])
    ensures Settlements(log + [next]) ==
            Settlements(log) + if next.Some? then [next.value] else []
  {
    var more := log + [next];
    assert more[..|log|] == log;
    forall k | 0 <= k < |more| ensures Fits(turns, queue, line, more[..k], more[k]) {
      assert more[..k] == log[..k];
      assert k == |log| ==> more[..k] == log;
    }
  }

  lemma JobsAppend(settled: seq<Settlement>, s: Settlement)
    ensures Jobs(settled + [s]) == Jobs(settled) + {s.job}
  {
    assert forall x :: x in settled + [s] <==> x in settled || x == s;
  }

  lemma {:induction false} ArrivedMonotone(turns: seq<Turn>, m: nat, n: nat)
    requires m <= n <= |turns|
    ensures Arrived(turns[..m]) <= Arrived(turns[..n])
  {
    assert turns[..n][..m] == turns[..m];
    ArrivedPrefix(turns[..n], m);
  }

  lemma JobsNext(log: Log, n: nat)
    requires n < |log|
    ensures Jobs(Settlements(log[..n + 1])) ==
            Jobs(Settlements(log[..n])) + if log[n].Some? then {log[n].value.job} else {}
  {
    assert log[..n + 1][..n] == log[..n];
    if log[n].Some? {
      JobsAppend(Settlements(log[..n]), log[n].value);
    }
  }

  lemma {:induction false} SettledMonotone(log: Log, n: nat, end: nat)
    requires n <= end <= |log|
    ensures Jobs(Settlements(log[..n])) <= Jobs(Settlements(log[..end]))
    decreases end
  {
    if n < end {
      SettledMonotone(log, n, end - 1);
      JobsNext(log, end - 1);
    }
  }

  lemma TakenArrived(turns: seq<Turn>, queue: set<Job>, line: Line, earlier: Log, entry: Option<Settlement>)
    requires |earlier| < |turns| && Fits(turns, queue, line, earlier, entry) && entry.Some?
    ensures entry.value.job in queue + Arrived(turns[..|earlier| + 1])
  {
    assert entry.value.job in Waiting(turns, queue, earlier);
  }

  lemma {:induction false} SettledArrived(turns: seq<Turn>, queue: set<Job>, line: Line, log: Log, end: nat)
    requires Served(turns, queue, line, log) && end <= |log|
    ensures Jobs(Settlements(log[..end])) <= queue + Arrived(turns[..end])
    decreases end
  {
    if end > 0 {
      SettledArrived(turns, queue, line, log, end - 1);
      JobsNext(log, end - 1);
      ArrivedMonotone(turns, end - 1, end);
      if log[end - 1].Some? {
        TakenArrived(turns, queue, line, log[..end - 1], log[end - 1]);
      }
    }
  }
  lemma SettlesWaiting(turns: seq<Turn>, queue: set<Job>, line: Line, earlier: Log, entry: Option<Settlement>, job: Job)
    requires |earlier| < |turns| && Fits(turns, queue, line, earlier, entry)
    requires job in queue + Arrived(turns[..|earlier| + 1]) && job !in Jobs(Settlements(earlier))
    ensures entry.Some? && entry.value.job !in Jobs(Settlements(earlier))
  {
    assert job in Waiting(turns, queue, earlier);
  }

  lemma StillQueued(turns: seq<Turn>, queue: set<Job>, line: Line, log: Log, job: Job, m: nat, n: nat)
    requires Served(turns, queue, line, log) && m <= n < |log|
    requires job in queue + Arrived(turns[..m + 1]) && job !in Jobs(Settlements(log))
    ensures log[n].Some? && log[n].value.job !in Jobs(Settlements(log[..n]))
  {
    ArrivedMonotone(turns, m + 1, n + 1);
    assert log[..|log|] == log;
    SettledMonotone(log, n, |log|);
    SettlesWaiting(turns, queue, line, log[..n], log[n], job);
  }

  lemma OneMore(jobs: set<Job>, job: Job)
    requires job !in jobs
    ensures |jobs + {job}| == |jobs| + 1
  {
  }

  /** While a job waits, every turn settles another one. */
  lemma {:induction false} OthersSettled(turns: seq<Turn>, queue: set<Job>, line: Line, log: Log, job: Job,
                                         m: nat, n: nat)
    requires Served(turns, queue, line, log) && m <= n <= |log| && m < |log|
    requires job in queue + Arrived(turns[..m + 1]) && job !in Jobs(Settlements(log))
    ensures |Jobs(Settlements(log[..n]))| >= n - m
    decreases n
  {
    if n > m {
      OthersSettled(turns, queue, line, log, job, m, n - 1);
      StillQueued(turns, queue, line, log, job, m, n - 1);
      JobsNext(log, n - 1);
      OneMore(Jobs(Settlements(log[..n - 1])), log[n - 1].value.job);
    }
  }

  lemma FewerThan(part: set<Job>, whole: set<Job>, job: Job)
    requires part <= whole && job in whole && job !in part
    ensures |part| < |whole|
  {
    var rest := whole - part - {job};
    assert whole == part + rest + {job};
    assert |whole| == |part + rest| + 1 && |part + rest| == |part| + |rest|;
  }

  /** The loop has had as many turns since the job came as there were jobs. */
  ghost predicate Due(turns: seq<Turn>, queue: set<Job>, log: Log, job: Job, m: nat) {
    && m < |log| <= |turns| && job in queue + Arrived(turns[..m + 1])
    && |log| - m >= |queue + Arrived(turns[..|log|])|
  }

  /** Then the loop itself answers it. */
  lemma EveryJobServed(turns: seq<Turn>, queue: set<Job>, line: Line, log: Log, job: Job, m: nat)
    requires Served(turns, queue, line, log) && Due(turns, queue, log, job, m)
    ensures job in Jobs(Settlements(log))
  {
    if job !in Jobs(Settlements(log)) {
      OthersSettled(turns, queue, line, log, job, m, |log|);
      assert log[..|log|] == log;
      SettledArrived(turns, queue, line, log, |log|);
      ArrivedMonotone(turns, m + 1, |log|);
      FewerThan(Jobs(Settlements(log)), queue + Arrived(turns[..|log|]), job);
    }
  }

  /** And the loop tells no job that the application is shutting down. */
  lemma {:induction false} LoopAnswers(turns: seq<Turn>, queue: set<Job>, line: Line, log: Log, n: nat, s: Settlement)
    requires Served(turns, queue, line, log) && n <= |log| && s in Settlements(log[..n])
    ensures s.outcome != ShuttingDown
  {
    assert n > 0 && log[..n][..n - 1] == log[..n - 1];
    assert Fits(turns, queue, line, log[..n - 1], log[n - 1]);
    if s in Settlements(log[..n - 1]) {
      LoopAnswers(turns, queue, line, log, n - 1, s);
    }
  }

  /** The job was settled, and not by the drain. */
  ghost predicate Answered(settled: seq<Settlement>, job: Job) {
    exists s :: s in settled && s.job == job && s.outcome != ShuttingDown
  }

  lemma DueAnswered(turns: seq<Turn>, queue: set<Job>, line: Line, log: Log, before: seq<Settlement>)
    requires Served(turns, queue, line, log)
    ensures forall job, m :: Due(turns, queue, log, job, m) ==> Answered(before + Settlements(log), job)
  {
    forall job, m | Due(turns, queue, log, job, m) ensures Answered(before + Settlements(log), job) {
      EveryJobServed(turns, queue, line, log, job, m);
      var s :| s in Settlements(log) && s.job == job;
      assert log[..|log|] == log;
      LoopAnswers(turns, queue, line, log, |log|, s);
      assert s in before + Settlements(log);
    }
  }

  lemma Minus(all: set<Job>, gone: set<Job>, more: set<Job>)
    ensures all - (gone + more) == all - gone - more
  {
  }

  lemma PlusFresh(queue: set<Job>, arrived: set<Job>, gone: set<Job>, more: set<Job>)
    requires more !! gone
    ensures queue + (arrived + more) - gone == queue + arrived - gone + more
  {
  }

  lemma WaitingNow(turns: seq<Turn>, queue: set<Job>, log: Log)
    requires |log| < |turns| && turns[|log|].arrivals !! Jobs(Settlements(log))
    ensures Waiting(turns, queue, log) == Left(turns, queue, log) + turns[|log|].arrivals
  {
    ArrivedNext(turns, |log|);
    PlusFresh(queue, Arrived(turns[..|log|]), Jobs(Settlements(log)), turns[|log|].arrivals);
  }

  lemma JobsOfPart(before: seq<Settlement>, more: seq<Settlement>)
    ensures Jobs(more) <= Jobs(before + more)
  {
    assert forall s :: s in more ==> s in before + more;
  }

  lemma LeftNext(turns: seq<Turn>, queue: set<Job>, log: Log, entry: Option<Settlement>)
    requires |log| < |turns|
    ensures Left(turns, queue, log + [entry]) ==
            Waiting(turns, queue, log) - if entry.Some? then {entry.value.job} else {}
  {
    assert (log + [entry])[..|log|] == log && (log + [entry])[..|log| + 1] == log + [entry];
    JobsNext(log + [entry], |log|);
    Minus(queue + Arrived(turns[..|log| + 1]), Jobs(Settlements(log)), if entry.Some? then {entry.value.job} else {});
  }

  lemma RunsOn(turns: seq<Turn>, log: Log, entry: Option<Settlement>)
    requires |log| < |turns| && RunsSoFar(turns, log) && !turns[|log|].stopping
    requires log == [] || !IsOrder(log[|log| - 1])
    ensures RunsSoFar(turns, log + [entry])
  {
  }

  /** What one more turn keeps of the loop's account. */
  lemma LoopStep(turns: seq<Turn>, queue: set<Job>, line: Line, log: Log, entry: Option<Settlement>)
    requires |log| < |turns| && Served(turns, queue, line, log) && Fits(turns, queue, line, log, entry)
    ensures Served(turns, queue, line, log + [entry])
    ensures Settlements(log + [entry]) == Settlements(log) + if entry.Some? then [entry.value] else []
    ensures LineAt(line, turns, log + [entry]) == LineAfter(LineAt(line, turns, log), turns[|log|], entry)
  {
    ServedNext(turns, queue, line, log, entry);
    assert (log + [entry])[..|log|] == log;
  }

  class DeviceSession {
    var queue: set<Job>
    var settled: seq<Settlement>
    var client: bool
    var pace: Pace
    var lastError: Option<Failure>
    ghost var put: set<Job>
    ghost var takes: seq<Take>
    ghost var attempts: seq<Attempt>

    /** The same while the jobs in `hand` have been taken and not yet settled. */
    ghost predicate Accounted(hand: set<Job>)
      reads this
    {
      && Numbered(put)
      && put == queue + Jobs(settled) + hand
      && queue !! Jobs(settled) && hand !! queue && hand !! Jobs(settled)
      && NoneTwice(settled)
    }

    ghost predicate Ordered()
      reads this
    {
      InOrder(takes) && (takes != [] ==> takes[|takes| - 1].queue - {takes[|takes| - 1].job} <= queue)
    }

    /** The pace is that of the attempts made, and a pending pause comes with the reason for it. */
    ghost predicate PacedByHistory()
      reads this
    {
      && Legal(attempts) && pace == After(attempts)
      && (pace.next > 0 ==> attempts != [] && attempts[|attempts| - 1].reply.Refused? &&
                            lastError == Some(attempts[|attempts| - 1].reply.why))
    }

    /** Everything ever queued is either still queued or settled exactly once. */
    ghost predicate Valid()
      reads this
    {
      Accounted({}) && Ordered() && PacedByHistory()
    }

    constructor ()
      ensures Valid() && put == {} && !client
    {
      queue, settled, client, pace, lastError := {}, [], false, Pace(START, 0), None;
      put, takes, attempts := {}, [], [];
    }

    method Arrive(jobs: set<Job>)
      requires Valid() && Numbered(put + jobs) && put !! jobs
      modifies this`queue, this`put
      ensures Valid() && put == old(put) + jobs && queue == old(queue) + jobs
    {
      queue := queue + jobs;
      put := put + jobs;
    }

    /** `PriorityQueue.get` on a queue that is not empty. */
    method TakeLeast() returns (job: Job)
      requires Valid() && queue != {}
      modifies this`queue, this`takes
      ensures IsLeast(job, old(queue)) && queue == old(queue) - {job}
      ensures takes == old(takes) + [Take(job, old(queue))]
      ensures Accounted({job}) && Ordered() && PacedByHistory()
    {
      HasLeast(queue);
      job :| IsLeast(job, queue);
      takes := takes + [Take(job, queue)];
      queue := queue - {job};
    }

    method Settle(job: Job, outcome: Outcome)
      requires Accounted({job}) && Ordered() && PacedByHistory()
      modifies this`settled
      ensures Valid()
      ensures settled == old(settled) + [Settlement(job, outcome)]
    {
      settled := settled + [Settlement(job, outcome)];
      assert Jobs(settled) == old(Jobs(settled)) + {job} by {
        assert settled[|settled| - 1].job == job;
        assert forall s :: s in settled <==> s in old(settled) || s == Settlement(job, outcome);
      }
      assert forall i :: 0 <= i < |old(settled)| ==> settled[i] in old(settled) && settled[i].job in old(Jobs(settled));
    }

    /** Connects when there is no live client and the pause is over; otherwise attempts nothing. */
    method EnsureClient(now: nat, alive: bool, reply: Reply) returns (ready: bool)
      requires PacedByHistory() && (client ==> pace.next == 0)
      modifies this`client, this`pace, this`lastError, this`attempts
      ensures PacedByHistory() && (client ==> pace.next == 0)
      ensures ready == client
      ensures attempts == if (old(client) && alive) || now < old(pace.next) then old(attempts)
              else old(attempts) + [Attempt(now, reply)]
      ensures ready <==> (old(client) && alive) || (attempts != old(attempts) && reply.Connected?)
      ensures !ready ==> attempts != [] && attempts[|attempts| - 1].reply.Refused?
      ensures !ready ==> lastError == Some(attempts[|attempts| - 1].reply.why)
      ensures Line(client, attempts) == Ensured(Line(old(client), old(attempts)), now, alive, reply)
    {
      if client && alive {
        return true;
      }
      client := false;
      if now < pace.next {
        return false;
      }
      ghost var before := attempts;
      attempts := attempts + [Attempt(now, reply)];
      assert attempts[..|attempts| - 1] == before;
      match reply {
        case Refused(why) =>
          if why.Generic? {
            pace := Pace(Min(MAX, pace.backoff * 2), now + Min(MAX, pace.backoff * 2));
          } else {
            pace := pace.(next := now + MAX);
          }
          lastError := Some(why);
          return false;
        case Connected =>
          client := true;
          pace := Pace(START, 0);
          lastError := None;
          return true;
      }
    }

    ghost function TheLine(): Line
      reads this
    {
      Line(client, attempts)
    }

    ghost predicate Steady()
      reads this
    {
      Valid() && (client ==> pace.next == 0)
    }

    /** Run a job to its end. */
    method Perform(job: Job, run: JobRun)
      requires Accounted({job}) && Ordered() && PacedByHistory() && client && pace.next == 0
      modifies this`settled, this`client, this`lastError
      ensures Steady()
      ensures settled == old(settled) + [Settlement(job, if run.Succeeds? then Returned else Raised)]
      ensures client <==> run.Succeeds? || (run.Fails? && run.aliveAfter)
    {
      if run.Succeeds? {
        Settle(job, Returned);
        return;
      }
      Settle(job, Raised);
      if run.HostKeyFails? {
        client, lastError := false, Some(HostKeyChanged);
      } else if !run.aliveAfter {
        client := false;
      }
    }

    /** Tell a job why there is no client. */
    method Refuse(job: Job)
      requires Accounted({job}) && Ordered() && PacedByHistory() && !client
      requires attempts != [] && attempts[|attempts| - 1].reply.Refused?
      requires lastError == Some(attempts[|attempts| - 1].reply.why)
      modifies this`settled
      ensures Steady()
      ensures settled == old(settled) + [Settlement(job, Unavailable(attempts[|attempts| - 1].reply.why))]
    {
      var why := if lastError.Some? then lastError.value else Generic;
      Settle(job, Unavailable(why));
    }

    /** One job: refused when there is no client, run to completion otherwise. A refusal carries the reason of
        the latest attempt. */
    method Serve(job: Job, turn: Turn)
      requires Accounted({job}) && Ordered() && PacedByHistory() && (client ==> pace.next == 0)
      modifies this`settled, this`client, this`pace, this`lastError, this`attempts
      ensures Steady()
      ensures |settled| == |old(settled)| + 1 && settled[..|old(settled)|] == old(settled)
      ensures var s := settled[|old(settled)|];
              var ready := (old(client) && turn.alive) || (attempts != old(attempts) && turn.reply.Connected?);
              && s.job == job
              && (if !ready then attempts != [] && attempts[|attempts| - 1].reply.Refused? &&
                                 s.outcome == Unavailable(attempts[|attempts| - 1].reply.why)
                  else s.outcome == if turn.run.Succeeds? then Returned else Raised)
              && (client <==> ready && (turn.run.Succeeds? || (turn.run.Fails? && turn.run.aliveAfter)))
              && (!job.shutdown ==> Answers(turn, old(TheLine()), s) &&
                                    TheLine() == LineAfter(old(TheLine()), turn, Some(s)))
    {
      var ready := EnsureClient(turn.now, turn.alive, turn.reply);
      if !ready {
        Refuse(job);
        return;
      }
      Perform(job, turn.run);
    }

    /** An empty queue: now and then, check that the session is still usable. */
    method Idle(turn: Turn)
      requires Steady()
      modifies this`client, this`pace, this`lastError, this`attempts
      ensures Steady()
      ensures attempts != old(attempts) ==> old(client) && turn.idleTooLong && !turn.aliveWhenIdle
      ensures TheLine() == LineAfter(old(TheLine()), turn, None)
    {
      if client && turn.idleTooLong && !turn.aliveWhenIdle {
        var ready := EnsureClient(turn.now, turn.alive, turn.reply);
      }
    }

    /** One turn of the worker's loop. */
    method TakeTurn(turn: Turn) returns (shutdown: bool, ghost entry: Option<Settlement>)
      requires Steady() && Numbered(put + turn.arrivals) && put !! turn.arrivals
      modifies this
      ensures Steady() && put == old(put) + turn.arrivals
      ensures entry.None? <==> old(queue) + turn.arrivals == {}
      ensures settled == old(settled) + if entry.Some? then [entry.value] else []
      ensures queue == old(queue) + turn.arrivals - if entry.Some? then {entry.value.job} else {}
      ensures entry.Some? ==> IsLeast(entry.value.job, old(queue) + turn.arrivals) &&
                              Answers(turn, old(TheLine()), entry.value)
      ensures TheLine() == LineAfter(old(TheLine()), turn, entry)
      ensures shutdown <==> IsOrder(entry)
    {
      shutdown, entry := false, None;
      Arrive(turn.arrivals);
      if queue == {} {
        Idle(turn);
        return;
      }
      var job := TakeLeast();
      if job.shutdown {
        Settle(job, Returned);
        shutdown := true;
      } else {
        Serve(job, turn);
      }
      entry := Some(settled[|settled| - 1]);
    }

    /** One turn of the drain. */
    method DrainTurn(arrivals: set<Job>) returns (empty: bool)
      requires Valid() && Numbered(put + arrivals) && put !! arrivals
      modifies this
      ensures Valid() && put == old(put) + arrivals
      ensures empty ==> queue == {} && Jobs(settled) == put
      ensures OnlyShutDown(old(settled), settled)
    {
      Arrive(arrivals);
      empty := queue == {};
      if !empty {
        var job := TakeLeast();
        Settle(job, ShuttingDown);
      }
    }

    /** The loop's account after the turns logged. */
    ghost predicate Looped(turns: seq<Turn>, start: Line, queued: set<Job>, earlier: seq<Settlement>, before: set<Job>,
                           log: Log)
      reads this
    {
      && Steady() && Reached(turns, |log|, before, put)
      && Served(turns, queued, start, log) && RunsSoFar(turns, log)
      && settled == earlier + Settlements(log) && TheLine() == LineAt(start, turns, log)
      && queue == Left(turns, queued, log)
    }

    method LoopTurn(turns: seq<Turn>, used: nat, ghost start: Line, ghost queued: set<Job>,
                    ghost earlier: seq<Settlement>, ghost before: set<Job>, ghost log: Log)
      returns (shutdown: bool, ghost entry: Option<Settlement>)
      requires Looped(turns, start, queued, earlier, before, log) && |log| == used < |turns| && !turns[used].stopping
      requires log != [] ==> !IsOrder(log[used - 1])
      modifies this
      ensures Looped(turns, start, queued, earlier, before, log + [entry])
      ensures shutdown <==> IsOrder(entry)
    {
      Advance(turns, used, before, put);
      JobsOfPart(earlier, Settlements(log));
      WaitingNow(turns, queued, log);
      shutdown, entry := TakeTurn(turns[used]);
      LoopStep(turns, queued, start, log, entry);
      LeftNext(turns, queued, log, entry);
      RunsOn(turns, log, entry);
    }

    /** The loop of the worker thread, until it is told to stop or the given turns are over. */
    method Loop(turns: seq<Turn>) returns (stopped: bool, used: nat, ghost log: Log)
      requires Steady() && FreshTurns(put, turns)
      modifies this
      ensures Steady() && Reached(turns, used, old(put), put)
      // Each turn that finds a job queued answers one, the least, as the line to the device then allows.
      ensures |log| == used && Served(turns, old(queue), old(TheLine()), log)
      ensures settled == old(settled) + Settlements(log)
      ensures RunsUntilStopped(turns, log, stopped)
    {
      stopped, used, log := false, 0, [];
      ghost var start := TheLine();
      assert turns[0..] == turns;
      while used < |turns| && !stopped
        invariant |log| == used && Looped(turns, start, old(queue), old(settled), old(put), log)
        invariant stopped ==> (used < |turns| && turns[used].stopping) || (log != [] && IsOrder(log[used - 1]))
        invariant !stopped && log != [] ==> !IsOrder(log[used - 1])
        decreases |turns| - used, !stopped
      {
        if turns[used].stopping {
          stopped := true;
        } else {
          ghost var entry;
          stopped, entry := LoopTurn(turns, used, start, old(queue), old(settled), old(put), log);
          log := log + [entry];
          used := used + 1;
        }
      }
    }

    /** The drain after the loop. */
    method Drain(turns: seq<Turn>, start: nat, ghost before: set<Job>) returns (finished: bool, used: nat)
      requires Valid() && Reached(turns, start, before, put)
      modifies this
      ensures Valid() && Reached(turns, used, before, put)
      ensures finished ==> queue == {} && Jobs(settled) == put
      ensures OnlyShutDown(old(settled), settled)
    {
      finished, used := false, start;
      client := false;
      while used < |turns| && !finished
        invariant Valid()
        invariant Reached(turns, used, before, put)
        invariant finished ==> queue == {} && Jobs(settled) == put
        invariant OnlyShutDown(old(settled), settled)
        decreases |turns| - used
      {
        Advance(turns, used, before, put);
        finished := DrainTurn(turns[used].arrivals);
        used := used + 1;
      }
    }

    /** The worker thread, for as many turns as are given. When it has finished its drain, every job put before
        its last look at the queue has been settled, exactly once. */
    method Work(turns: seq<Turn>) returns (finished: bool, used: nat, ghost log: Log)
      requires Steady() && FreshTurns(put, turns)
      modifies this
      ensures Valid() && Reached(turns, used, old(put), put)
      ensures finished ==> queue == {} && Jobs(settled) == put
      // The loop answers what it can; only what it left queued is told that the application is shutting down.
      ensures Served(turns, old(queue), old(TheLine()), log)
      ensures exists stopped :: RunsUntilStopped(turns, log, stopped)
      ensures OnlyShutDown(old(settled) + Settlements(log), settled)
      ensures forall job, m :: Due(turns, old(queue), log, job, m) ==> Answered(settled, job)
    {
      var stopped;
      stopped, used, log := Loop(turns);
      DueAnswered(turns, old(queue), old(TheLine()), log, old(settled));
      ghost var looped := settled;
      finished := false;
      if stopped {
        finished, used := Drain(turns, used, old(put));
      }
      assert forall s :: s in looped ==> s in settled;
    }

    /** A submission that passed the stop check but reaches the queue after the last look is never settled by
        that worker; those are the only ones. */
    method WorkThenLate(turns: seq<Turn>, late: set<Job>) returns (finished: bool)
      requires Steady() && FreshTurns(put, turns)
      requires Numbered(put + Arrived(turns) + late) && late !! (put + Arrived(turns))
      modifies this
      ensures Valid()
      ensures finished ==> put - Jobs(settled) == late
    {
      var used;
      ghost var log;
      finished, used, log := Work(turns);
      ArrivedPrefix(turns, used);
      assert put + late <= old(put) + Arrived(turns) + late;
      Arrive(late);
    }
  }
}
