/**
 Single-flight token refresh of the browser client (frontend/src/api/client.ts lines 66-137).

 `ApiClient` holds the module variables and runs the interceptor. `Client` is the same state as
 a value; `History` adds what an observer of the whole page would write down, and the theorems
 are about every history of n requests.
 */
module TokenRefresh {
  import opened Basics

  /** Where one request stands. A waiter remembers which refresh it waits for. */
  datatype Phase = Unsent | InFlight | Waiting(epoch: nat) | Leading | Released | Done(ok: bool)

  datatype Request = Request(phase: Phase, retried: bool, isAuth: bool, sends: nat)

  datatype Reply = Success | Unauthorized | OtherError

  datatype Client = Client(requests: seq<Request>, isRefreshing: bool, failedQueue: seq<nat>)

  datatype Event =
    | Send(r: nat)
    | Answer(r: nat, reply: Reply)
    | RefreshEnds(r: nat, ok: bool)
    | Resend(r: nat)

  predicate Enabled(c: Client, e: Event) {
    && e.r < |c.requests|
    && match e
       case Send(r) => c.requests[r].phase == Unsent
       case Answer(r, _) => c.requests[r].phase == InFlight
       case RefreshEnds(r, _) => c.requests[r].phase == Leading
       case Resend(r) => c.requests[r].phase == Released
  }

  function SetPhase(c: Client, r: nat, phase: Phase): Client
    requires r < |c.requests|
  {
    c.(requests := c.requests[r := c.requests[r].(phase := phase)])
  }

  function SendAgain(c: Client, r: nat): Client
    requires r < |c.requests|
  {
    c.(requests := c.requests[r := c.requests[r].(phase := InFlight, sends := c.requests[r].sends + 1)])
  }

  /** Every queued request is resolved or rejected, and the queue is emptied. */
  function ProcessQueue(c: Client, ok: bool): (d: Client)
    ensures |d.requests| == |c.requests| && d.failedQueue == [] && d.isRefreshing == c.isRefreshing
    ensures forall i | 0 <= i < |c.requests| ::
              d.requests[i] == if i in c.failedQueue
                               then c.requests[i].(phase := if ok then Released else Done(false))
                               else c.requests[i]
  {
    var settle := i requires 0 <= i < |c.requests| =>
      if i in c.failedQueue then c.requests[i].(phase := if ok then Released else Done(false)) else c.requests[i];
    c.(requests := seq(|c.requests|, settle), failedQueue := [])
  }

  /** `epoch` numbers the refresh that is running or would start next. */
  function Next(c: Client, epoch: nat, e: Event): Client
    requires Enabled(c, e)
  {
    match e
    case Send(r) => SendAgain(c, r)
    case Resend(r) => SendAgain(c, r)
    case Answer(r, reply) =>
      var request := c.requests[r];
      if reply == Success then SetPhase(c, r, Done(true))
      else if reply == OtherError || request.retried then SetPhase(c, r, Done(false))
      else if request.isAuth then SetPhase(c, r, Done(false))
      else if c.isRefreshing then SetPhase(c, r, Waiting(epoch)).(failedQueue := c.failedQueue + [r])
      else
        Client(c.requests[r := request.(phase := Leading, retried := true)], true, c.failedQueue)
    case RefreshEnds(r, ok) =>
      var settled := ProcessQueue(c, ok).(isRefreshing := false);
      if ok then SendAgain(settled, r) else SetPhase(settled, r, Done(false))
  }

  class ApiClient {
    var requests: seq<Request>
    var isRefreshing: bool
    var failedQueue: seq<nat>

    constructor (n: nat, auth: set<nat>)
      ensures Value() == Fresh(n, auth)
    {
      requests := seq(n, i => Request(Unsent, false, i in auth, 0));
      isRefreshing := false;
      failedQueue := [];
    }

    function Value(): Client
      reads this
    {
      Client(requests, isRefreshing, failedQueue)
    }

    method ProcessFailedQueue(ok: bool)
      requires forall i | 0 <= i < |failedQueue| :: failedQueue[i] < |requests|
      modifies this
      ensures Value() == ProcessQueue(old(Value()), ok)
    {
      for k := 0 to |failedQueue|
        invariant isRefreshing == old(isRefreshing) && failedQueue == old(failedQueue)
        invariant |requests| == old(|requests|)
        invariant forall i | 0 <= i < |requests| ::
                    requests[i] == if i in failedQueue[..k]
                                   then old(requests)[i].(phase := if ok then Released else Done(false))
                                   else old(requests)[i]
      {
        var r := failedQueue[k];
        assert failedQueue[..k + 1] == failedQueue[..k] + [r];
        requests := requests[r := requests[r].(phase := if ok then Released else Done(false))];
      }
      assert failedQueue[..|failedQueue|] == failedQueue;
      assert requests == ProcessQueue(old(Value()), ok).requests;
      failedQueue := [];
    }

    /** The error interceptor up to its first `await`. */
    method OnAnswer(r: nat, reply: Reply, epoch: nat)
      requires Enabled(Value(), Answer(r, reply))
      modifies this
      ensures Value() == Next(old(Value()), epoch, Answer(r, reply))
    {
      var request := requests[r];
      if reply == Success {
        requests := requests[r := request.(phase := Done(true))];
        return;
      }
      if reply != Unauthorized || request.retried {
        requests := requests[r := request.(phase := Done(false))];
        return;
      }
      if request.isAuth {
        requests := requests[r := request.(phase := Done(false))];
        return;
      }
      if isRefreshing {
        requests := requests[r := request.(phase := Waiting(epoch))];
        failedQueue := failedQueue + [r];
        return;
      }
      requests := requests[r := request.(phase := Leading, retried := true)];
      isRefreshing := true;
    }

    /** The leader after its refresh call returned or threw. */
    method OnRefreshEnd(r: nat, ok: bool, epoch: nat)
      requires Enabled(Value(), RefreshEnds(r, ok))
      requires forall i | 0 <= i < |failedQueue| :: failedQueue[i] < |requests|
      modifies this
      ensures Value() == Next(old(Value()), epoch, RefreshEnds(r, ok))
    {
      ProcessFailedQueue(ok);
      if ok {
        requests := requests[r := requests[r].(phase := InFlight, sends := requests[r].sends + 1)];
      } else {
        requests := requests[r := requests[r].(phase := Done(false))];
      }
      isRefreshing := false;
    }
  }

  function Fresh(n: nat, auth: set<nat>): Client {
    Client(seq(n, i => Request(Unsent, false, i in auth, 0)), false, [])
  }

  // --------------------------------------------------------------- histories

  datatype Wait = Wait(request: nat, epoch: nat)

  datatype Settlement = Settlement(wait: Wait, ok: bool)

  /** `outcomes[e]` is how refresh `e` ended. */
  datatype History = History(client: Client, outcomes: seq<bool>, enrolled: set<Wait>, settlements: seq<Settlement>)

  /** What settling the queue adds to the record, one entry per queued promise. */
  function Settling(queue: seq<nat>, epoch: nat, ok: bool): (s: seq<Settlement>)
    ensures |s| == |queue|
    ensures forall i | 0 <= i < |queue| :: s[i] == Settlement(Wait(queue[i], epoch), ok)
  {
    seq(|queue|, i requires 0 <= i < |queue| => Settlement(Wait(queue[i], epoch), ok))
  }

  function Record(h: History, e: Event): History
    requires Enabled(h.client, e)
  {
    var epoch := |h.outcomes|;
    var client := Next(h.client, epoch, e);
    match e
    case RefreshEnds(_, ok) =>
      History(client, h.outcomes + [ok], h.enrolled,
              h.settlements + Settling(h.client.failedQueue, epoch, ok))
    case Answer(r, _) =>
      var waits := if client.requests[r].phase.Waiting? then {Wait(r, epoch)} else {};
      h.(client := client, enrolled := h.enrolled + waits)
    case _ => h.(client := client)
  }

  function Execute(h: History, events: seq<Event>): Option<History>
    decreases |events|
  {
    if events == [] then Some(h)
    else if !Enabled(h.client, events[0]) then None
    else Execute(Record(h, events[0]), events[1..])
  }

  function Opening(n: nat, auth: set<nat>): History {
    History(Fresh(n, auth), [], {}, [])
  }

  // --------------------------------------------------- queue and single flight

  predicate LeaderIs(c: Client, r: nat) {
    r < |c.requests| && forall s | 0 <= s < |c.requests| :: c.requests[s].phase == Leading <==> s == r
  }

  predicate NoLeader(c: Client) {
    forall s | 0 <= s < |c.requests| :: c.requests[s].phase != Leading
  }

  /** One refresh is in flight exactly while the flag is up, and it has one leader. */
  ghost predicate OneLeader(c: Client) {
    if c.isRefreshing then exists r :: LeaderIs(c, r) else NoLeader(c)
  }

  /** The queue holds exactly the waiters of the running refresh, each once; without a refresh it is empty. */
  predicate QueueIsWaiters(c: Client, epoch: nat) {
    && (!c.isRefreshing ==> c.failedQueue == [])
    && (forall i | 0 <= i < |c.failedQueue| ::
          c.failedQueue[i] < |c.requests| && c.requests[c.failedQueue[i]].phase == Waiting(epoch))
    && (forall i, j | 0 <= i < j < |c.failedQueue| :: c.failedQueue[i] != c.failedQueue[j])
    && (forall r | 0 <= r < |c.requests| && c.requests[r].phase.Waiting? :: r in c.failedQueue)
  }

  ghost predicate SingleFlight(c: Client, epoch: nat) {
    OneLeader(c) && QueueIsWaiters(c, epoch)
  }

  lemma LeaderStep(c: Client, epoch: nat, e: Event)
    requires OneLeader(c) && Enabled(c, e)
    ensures OneLeader(Next(c, epoch, e))
  {
    var d := Next(c, epoch, e);
    if c.isRefreshing {
      var l :| LeaderIs(c, l);
      if e.RefreshEnds? {
        assert e.r == l;
        assert forall s | 0 <= s < |c.requests| && s != l :: d.requests[s].phase != Leading;
      } else {
        assert e.r != l;
        assert forall s | 0 <= s < |c.requests| && s != e.r :: d.requests[s] == c.requests[s];
        assert LeaderIs(d, l);
      }
    } else {
      assert forall s | 0 <= s < |c.requests| && s != e.r :: d.requests[s] == c.requests[s];
      if d.isRefreshing {
        assert LeaderIs(d, e.r);
      }
    }
  }

  lemma QueueStep(c: Client, epoch: nat, e: Event)
    requires OneLeader(c) && QueueIsWaiters(c, epoch) && Enabled(c, e)
    ensures QueueIsWaiters(Next(c, epoch, e), if e.RefreshEnds? then epoch + 1 else epoch)
  {
    var d := Next(c, epoch, e);
    if e.RefreshEnds? {
      assert forall s | 0 <= s < |d.requests| && s != e.r :: !d.requests[s].phase.Waiting?;
    } else {
      assert e.r !in c.failedQueue;
      assert forall s | 0 <= s < |c.requests| && s != e.r :: d.requests[s] == c.requests[s];
      if d.failedQueue != c.failedQueue {
        QueueGrows(c, d, epoch, e.r);
      }
    }
  }

  lemma QueueGrows(c: Client, d: Client, epoch: nat, r: nat)
    requires QueueIsWaiters(c, epoch) && c.isRefreshing && d.isRefreshing
    requires r < |c.requests| && r !in c.failedQueue
    requires d.failedQueue == c.failedQueue + [r]
    requires d.requests == c.requests[r := c.requests[r].(phase := Waiting(epoch))]
    ensures QueueIsWaiters(d, epoch)
  {
    forall s | 0 <= s < |d.requests| && d.requests[s].phase.Waiting? ensures s in d.failedQueue {
      assert s != r ==> s in c.failedQueue;
    }
  }

  lemma SingleFlightStep(c: Client, epoch: nat, e: Event)
    requires SingleFlight(c, epoch) && Enabled(c, e)
    ensures SingleFlight(Next(c, epoch, e), if e.RefreshEnds? then epoch + 1 else epoch)
  {
    LeaderStep(c, epoch, e);
    QueueStep(c, epoch, e);
  }

  /** Each settlement answers an enrolled wait with the outcome of its own refresh, and no wait twice. */
  predicate SettlementsTrue(h: History) {
    && (forall i | 0 <= i < |h.settlements| ::
          && h.settlements[i].wait in h.enrolled
          && h.settlements[i].wait.epoch < |h.outcomes|
          && h.settlements[i].ok == h.outcomes[h.settlements[i].wait.epoch])
    && (forall i, j | 0 <= i < j < |h.settlements| :: h.settlements[i].wait != h.settlements[j].wait)
  }

  predicate IsSettled(settlements: seq<Settlement>, w: Wait) {
    exists i | 0 <= i < |settlements| :: settlements[i].wait == w
  }

  /** Every enrolled wait is settled once its refresh ended, and is queued before that. */
  predicate NoneForgotten(h: History) {
    && (forall w | w in h.enrolled && w.epoch < |h.outcomes| :: IsSettled(h.settlements, w))
    && (forall w | w in h.enrolled && w.epoch >= |h.outcomes| ::
          w.epoch == |h.outcomes| && w.request in h.client.failedQueue)
    && (forall i | 0 <= i < |h.client.failedQueue| :: Wait(h.client.failedQueue[i], |h.outcomes|) in h.enrolled)
  }

  predicate SettledOnce(h: History) {
    SettlementsTrue(h) && NoneForgotten(h)
  }

  lemma SettleQueue(h: History, queue: seq<nat>, ok: bool, g: History)
    requires SettledOnce(h) && queue == h.client.failedQueue
    requires forall i, j | 0 <= i < j < |queue| :: queue[i] != queue[j]
    requires g.outcomes == h.outcomes + [ok] && g.enrolled == h.enrolled && g.client.failedQueue == []
    requires g.settlements == h.settlements + Settling(queue, |h.outcomes|, ok)
    ensures SettledOnce(g)
  {
    hide Settling;
    var n := |h.settlements|;
    var added := Settling(queue, |h.outcomes|, ok);
    assert forall i | 0 <= i < n :: g.settlements[i] == h.settlements[i];
    assert forall i | n <= i < |g.settlements| :: g.settlements[i] == added[i - n];
    assert forall i | 0 <= i < |h.outcomes| :: g.outcomes[i] == h.outcomes[i];
    forall w | w in g.enrolled && w.epoch < |g.outcomes| ensures IsSettled(g.settlements, w) {
      if w.epoch < |h.outcomes| {
        assert IsSettled(h.settlements, w);
        var i :| 0 <= i < n && h.settlements[i].wait == w;
        assert g.settlements[i].wait == w;
      } else {
        var k :| 0 <= k < |queue| && queue[k] == w.request;
        assert g.settlements[n + k] == added[k];
      }
    }
  }

  lemma SettledOnceStep(h: History, e: Event)
    requires SingleFlight(h.client, |h.outcomes|) && SettledOnce(h) && Enabled(h.client, e)
    ensures SettledOnce(Record(h, e))
  {
    if e.RefreshEnds? {
      SettleQueue(h, h.client.failedQueue, e.ok, Record(h, e));
    }
  }

  // -------------------------------------------------------- sums over requests

  function Sum(f: Request -> int, s: seq<Request>): int {
    if s == [] then 0 else f(s[0]) + Sum(f, s[1..])
  }

  lemma {:induction false} SumUpdate(f: Request -> int, s: seq<Request>, i: nat, x: Request)
    requires i < |s|
    ensures Sum(f, s[i := x]) == Sum(f, s) - f(s[i]) + f(x)
  {
    if i == 0 {
      assert s[i := x][1..] == s[1..];
    } else {
      assert s[i := x][1..] == s[1..][i - 1 := x];
      SumUpdate(f, s[1..], i - 1, x);
    }
  }

  lemma {:induction false} SumBound(f: Request -> int, a: seq<Request>, b: seq<Request>, k: int)
    requires |a| == |b| && forall i | 0 <= i < |a| :: f(b[i]) <= f(a[i]) + k
    ensures Sum(f, b) <= Sum(f, a) + k * |a|
  {
    if a != [] {
      SumBound(f, a[1..], b[1..], k);
      assert k * |a| == k * |a[1..]| + k;
    }
  }

  lemma {:induction false} SumOfSame(f: Request -> int, s: seq<Request>, k: int)
    requires forall i | 0 <= i < |s| :: f(s[i]) == k
    ensures Sum(f, s) == k * |s|
  {
    if s != [] {
      SumOfSame(f, s[1..], k);
      assert k * |s| == k * |s[1..]| + k;
    }
  }

  // ------------------------------------------------------- counting refreshes

  const RetriedOnes: Request -> int := (r: Request) => if r.retried then 1 else 0

  function Refreshes(h: History): nat {
    |h.outcomes| + if h.client.isRefreshing then 1 else 0
  }

  /** Each request was sent at most once more than refreshes ended while it was alive. */
  predicate SendsBounded(r: Request, ended: nat) {
    match r.phase
    case Unsent => r.sends == 0
    case Released => r.sends <= ended
    case _ => r.sends <= 1 + ended
  }

  predicate Counted(h: History) {
    && Refreshes(h) == Sum(RetriedOnes, h.client.requests)
    && (forall r | 0 <= r < |h.client.requests| :: SendsBounded(h.client.requests[r], |h.outcomes|))
  }

  /** An event other than a refresh's end changes one request. */
  lemma OneRequestChanges(c: Client, epoch: nat, e: Event)
    requires Enabled(c, e) && !e.RefreshEnds?
    ensures var d := Next(c, epoch, e);
            |d.requests| == |c.requests| && d.requests == c.requests[e.r := d.requests[e.r]]
  {
  }

  /** Only a new leader becomes a retried request, and it raises the flag. */
  lemma RetriedChanges(c: Client, epoch: nat, e: Event)
    requires Enabled(c, e)
    ensures var d := Next(c, epoch, e);
            && |d.requests| == |c.requests|
            && (e.RefreshEnds? ==>
                  !d.isRefreshing && forall i | 0 <= i < |c.requests| :: d.requests[i].retried == c.requests[i].retried)
            && (!e.RefreshEnds? ==>
                  RetriedOnes(d.requests[e.r]) - RetriedOnes(c.requests[e.r])
                  == (if d.isRefreshing then 1 else 0) - (if c.isRefreshing then 1 else 0))
  {
  }

  lemma RetriedStep(h: History, e: Event)
    requires OneLeader(h.client) && Enabled(h.client, e)
    requires Refreshes(h) == Sum(RetriedOnes, h.client.requests)
    ensures Refreshes(Record(h, e)) == Sum(RetriedOnes, Record(h, e).client.requests)
  {
    var c, d := h.client, Record(h, e).client;
    RetriedChanges(c, |h.outcomes|, e);
    if e.RefreshEnds? {
      assert c.isRefreshing;
      hide Next;
      SumBound(RetriedOnes, c.requests, d.requests, 0);
      SumBound(RetriedOnes, d.requests, c.requests, 0);
    } else {
      OneRequestChanges(c, |h.outcomes|, e);
      hide Next;
      SumUpdate(RetriedOnes, c.requests, e.r, d.requests[e.r]);
    }
  }

  lemma SendsStep(h: History, e: Event)
    requires QueueIsWaiters(h.client, |h.outcomes|) && Enabled(h.client, e)
    requires forall r | 0 <= r < |h.client.requests| :: SendsBounded(h.client.requests[r], |h.outcomes|)
    ensures forall r | 0 <= r < |h.client.requests| ::
              SendsBounded(Record(h, e).client.requests[r], |Record(h, e).outcomes|)
  {
    if !e.RefreshEnds? {
      OneRequestChanges(h.client, |h.outcomes|, e);
    }
  }

  lemma CountedStep(h: History, e: Event)
    requires SingleFlight(h.client, |h.outcomes|) && Counted(h) && Enabled(h.client, e)
    ensures Counted(Record(h, e))
  {
    RetriedStep(h, e);
    SendsStep(h, e);
  }

  // ------------------------------------------------------------- termination

  function PhaseWeight(p: Phase): int {
    match p
    case Unsent => 2
    case InFlight => 1
    case Released => 2
    case _ => 0
  }

  /** Events a request can still cause, a refresh of its own included. */
  function WeightOf(n: nat, r: Request): int {
    PhaseWeight(r.phase) + if r.retried then 0 else 2 * n + 1
  }

  function Weight(n: nat): Request -> int {
    (r: Request) => WeightOf(n, r)
  }

  function Measure(c: Client): int {
    var n := |c.requests|;
    Sum(Weight(n), c.requests) + if c.isRefreshing then 2 * n + 1 else 0
  }

  lemma RefreshEndWeights(c: Client, epoch: nat, e: Event)
    requires Enabled(c, e) && e.RefreshEnds?
    ensures var d := Next(c, epoch, e);
            && |d.requests| == |c.requests| && !d.isRefreshing
            && forall i | 0 <= i < |c.requests| ::
                 WeightOf(|c.requests|, d.requests[i]) <= WeightOf(|c.requests|, c.requests[i]) + 2
  {
  }

  /** One step of one request costs it weight; becoming the leader spends its refresh on the running one. */
  lemma UpdateWeight(c: Client, epoch: nat, e: Event)
    requires Enabled(c, e) && !e.RefreshEnds?
    ensures var d, n := Next(c, epoch, e), |c.requests|;
            && WeightOf(n, d.requests[e.r]) + (if d.isRefreshing then 2 * n + 1 else 0)
             < WeightOf(n, c.requests[e.r]) + (if c.isRefreshing then 2 * n + 1 else 0)
  {
  }

  lemma MeasureDrops(c: Client, epoch: nat, e: Event)
    requires OneLeader(c) && Enabled(c, e)
    ensures Measure(Next(c, epoch, e)) < Measure(c)
  {
    var d := Next(c, epoch, e);
    var f := Weight(|c.requests|);
    if e.RefreshEnds? {
      assert c.isRefreshing;
      RefreshEndWeights(c, epoch, e);
      hide Next;
      SumBound(f, c.requests, d.requests, 2);
    } else {
      OneRequestChanges(c, epoch, e);
      UpdateWeight(c, epoch, e);
      hide Next;
      SumUpdate(f, c.requests, e.r, d.requests[e.r]);
    }
  }

  lemma {:induction false} MeasureIsNatural(n: nat, s: seq<Request>)
    ensures Sum(Weight(n), s) >= 0
  {
    if s != [] {
      MeasureIsNatural(n, s[1..]);
    }
  }

  // ------------------------------------------------------------ main results

  ghost predicate Sound(h: History) {
    SingleFlight(h.client, |h.outcomes|) && SettledOnce(h) && Counted(h)
  }

  lemma SoundStep(h: History, e: Event)
    requires Sound(h) && Enabled(h.client, e)
    ensures var g := Record(h, e);
            Sound(g) && |g.client.requests| == |h.client.requests| && Measure(g.client) < Measure(h.client)
  {
    SingleFlightStep(h.client, |h.outcomes|, e);
    SettledOnceStep(h, e);
    CountedStep(h, e);
    MeasureDrops(h.client, |h.outcomes|, e);
    SameRequests(h.client, |h.outcomes|, e);
    hide SingleFlight, SettledOnce, Counted, Measure, Next, Enabled;
  }

  lemma SameRequests(c: Client, epoch: nat, e: Event)
    requires Enabled(c, e)
    ensures |Next(c, epoch, e).requests| == |c.requests|
  {
  }

  lemma {:induction false} RunIsSound(h: History, events: seq<Event>, g: History)
    requires Sound(h) && Execute(h, events) == Some(g)
    ensures Sound(g) && |g.client.requests| == |h.client.requests|
    ensures |events| + Measure(g.client) <= Measure(h.client)
    decreases |events|
  {
    if events != [] {
      SoundStep(h, events[0]);
      hide Sound, Measure, Next, Enabled;
      RunIsSound(Record(h, events[0]), events[1..], g);
    }
  }

  lemma OpeningIsSound(n: nat, auth: set<nat>)
    ensures Sound(Opening(n, auth)) && Measure(Opening(n, auth).client) == n * (2 * n + 3)
  {
    SumOfSame(RetriedOnes, Fresh(n, auth).requests, 0);
    SumOfSame(Weight(n), Fresh(n, auth).requests, 2 * n + 3);
  }

  /**
   For n requests and any interleaving of answers and refresh outcomes: one refresh at a time, no
   waiters without a refresh, every waiter settled exactly once with the outcome of its own
   refresh, at most n refreshes, at most n + 1 sends of each request, and at most 2n^2 + 3n events.
   */
  lemma {:induction false} SingleFlightRefresh(n: nat, auth: set<nat>, events: seq<Event>, h: History)
    requires Execute(Opening(n, auth), events) == Some(h)
    ensures SingleFlight(h.client, |h.outcomes|)
    ensures SettledOnce(h)
    ensures Refreshes(h) <= n
    ensures forall r | 0 <= r < |h.client.requests| :: h.client.requests[r].sends <= n + 1
    ensures |events| <= n * (2 * n + 3)
  {
    OpeningIsSound(n, auth);
    RunIsSound(Opening(n, auth), events, h);
    assert |h.client.requests| == n;
    RetriedAtMostAll(h.client.requests);
    MeasureIsNatural(n, h.client.requests);
  }

  lemma {:induction false} RetriedAtMostAll(s: seq<Request>)
    ensures Sum(RetriedOnes, s) <= |s|
  {
    if s != [] {
      RetriedAtMostAll(s[1..]);
    }
  }

  // -------------------------------------------------- what a request is told

  /** Does the event put request `r` on the wire? */
  predicate Sends(e: Event, r: nat) {
    e == Send(r) || e == Resend(r) || e == RefreshEnds(r, true)
  }

  function Sendings(past: seq<Event>, r: nat): nat {
    if past == [] then 0
    else Sendings(past[..|past| - 1], r) + if Sends(past[|past| - 1], r) then 1 else 0
  }

  /** What the past of a request says about where it stands. */
  predicate Story(past: seq<Event>, h: History, r: nat)
    requires r < |h.client.requests|
  {
    var q := h.client.requests[r];
    && q.sends == Sendings(past, r)
    && (q.phase == Done(true) <==> Answer(r, Success) in past)
    && (Answer(r, OtherError) in past ==> q.phase == Done(false))
    && (q.phase == Done(false) ==> Answer(r, OtherError) in past || Answer(r, Unauthorized) in past)
    && (q.isAuth ==>
          && !q.retried && (q.phase.Unsent? || q.phase.InFlight? || q.phase.Done?)
          && q.sends == (if q.phase.Unsent? then 0 else 1)
          && (Answer(r, Unauthorized) in past ==> q.phase == Done(false)))
    && (q.phase == Done(false) && !q.isAuth && !q.retried && Answer(r, OtherError) !in past ==> false in h.outcomes)
    && (q.phase.Waiting? || q.phase.Leading? ==> Answer(r, Unauthorized) in past)
  }

  lemma {:induction false} AddedEvent(past: seq<Event>, e: Event, r: nat)
    ensures Sendings(past + [e], r) == Sendings(past, r) + if Sends(e, r) then 1 else 0
    ensures forall x :: x in past + [e] <==> x in past || x == e
  {
    assert (past + [e])[..|past|] == past;
  }

  /** An answer decides at once: success and other errors end the request, as a 401 does for a repeated or an auth request. */
  lemma AnswerDecides(c: Client, epoch: nat, r: nat, reply: Reply)
    requires Enabled(c, Answer(r, reply))
    ensures var q, d := c.requests[r], Next(c, epoch, Answer(r, reply));
            && |d.requests| == |c.requests| && d.requests == c.requests[r := d.requests[r]]
            && d.requests[r].sends == q.sends && d.requests[r].isAuth == q.isAuth
            && (d.requests[r].phase == Done(true) <==> reply == Success)
            && (d.requests[r].phase == Done(false) <==> reply == OtherError || (reply == Unauthorized && (q.retried || q.isAuth)))
            && (d.requests[r].phase == Waiting(epoch) <==>
                  reply == Unauthorized && !q.retried && !q.isAuth && c.isRefreshing)
            && (d.requests[r].phase == Leading <==>
                  reply == Unauthorized && !q.retried && !q.isAuth && !c.isRefreshing)
            && d.failedQueue == (if d.requests[r].phase.Waiting? then c.failedQueue + [r] else c.failedQueue)
            && (d.requests[r].retried <==> q.retried || d.requests[r].phase == Leading)
            && (d.isRefreshing <==> c.isRefreshing || d.requests[r].phase == Leading)
  {
  }

  /** A refresh's end sends its leader again or fails it, and settles exactly the queued requests. */
  lemma RefreshEndDecides(c: Client, epoch: nat, l: nat, ok: bool)
    requires Enabled(c, RefreshEnds(l, ok)) && QueueIsWaiters(c, epoch)
    ensures var d := Next(c, epoch, RefreshEnds(l, ok));
            && |d.requests| == |c.requests| && !d.isRefreshing && d.failedQueue == []
            && d.requests[l] == c.requests[l].(phase := if ok then InFlight else Done(false),
                                               sends := c.requests[l].sends + if ok then 1 else 0)
            && forall i | 0 <= i < |c.requests| && i != l ::
                 d.requests[i] == if c.requests[i].phase.Waiting?
                                  then c.requests[i].(phase := if ok then Released else Done(false))
                                  else c.requests[i]
  {
  }

  lemma AnswerStory(past: seq<Event>, h: History, a: nat, reply: Reply, r: nat)
    requires r < |h.client.requests| && Enabled(h.client, Answer(a, reply)) && Story(past, h, r)
    ensures var g := Record(h, Answer(a, reply));
            && r < |g.client.requests| && Story(past + [Answer(a, reply)], g, r)
            && g.client.requests[r].isAuth == h.client.requests[r].isAuth
  {
    AddedEvent(past, Answer(a, reply), r);
    AnswerDecides(h.client, |h.outcomes|, a, reply);
    hide Next, Sendings, Enabled;
  }

  lemma RefreshEndStory(past: seq<Event>, h: History, l: nat, ok: bool, r: nat)
    requires r < |h.client.requests| && Enabled(h.client, RefreshEnds(l, ok)) && Story(past, h, r)
    requires QueueIsWaiters(h.client, |h.outcomes|)
    ensures var g := Record(h, RefreshEnds(l, ok));
            && r < |g.client.requests| && Story(past + [RefreshEnds(l, ok)], g, r)
            && g.client.requests[r].isAuth == h.client.requests[r].isAuth
  {
    AddedEvent(past, RefreshEnds(l, ok), r);
    RefreshEndDecides(h.client, |h.outcomes|, l, ok);
    hide Next, Sendings, QueueIsWaiters, Settling;
    var g := Record(h, RefreshEnds(l, ok));
    assert g.outcomes == h.outcomes + [ok];
    assert !ok ==> g.outcomes[|h.outcomes|] == false;
  }

  lemma StoryStep(past: seq<Event>, h: History, e: Event, r: nat)
    requires r < |h.client.requests| && Enabled(h.client, e) && Story(past, h, r)
    requires QueueIsWaiters(h.client, |h.outcomes|)
    ensures r < |Record(h, e).client.requests| && Story(past + [e], Record(h, e), r)
    ensures Record(h, e).client.requests[r].isAuth == h.client.requests[r].isAuth
  {
    hide Sendings, QueueIsWaiters;
    match e
    case Answer(a, reply) =>
      hide Next, Story;
      AnswerStory(past, h, a, reply, r);
    case RefreshEnds(l, ok) =>
      hide Next, Story;
      RefreshEndStory(past, h, l, ok, r);
    case _ => AddedEvent(past, e, r);
  }

  lemma SoundQueue(h: History)
    requires Sound(h)
    ensures QueueIsWaiters(h.client, |h.outcomes|)
  {
  }

  lemma {:induction false} StoryRun(past: seq<Event>, h: History, events: seq<Event>, g: History, r: nat)
    requires r < |h.client.requests| && Story(past, h, r) && Sound(h) && Execute(h, events) == Some(g)
    ensures r < |g.client.requests| && Story(past + events, g, r)
    ensures g.client.requests[r].isAuth == h.client.requests[r].isAuth
    decreases |events|
  {
    hide Sound, Story, Next;
    if events == [] {
      assert past + events == past;
    } else {
      var e, next := events[0], Record(h, events[0]);
      hide Enabled;
      SoundQueue(h);
      StoryStep(past, h, e, r);
      SoundStep(h, e);
      StoryRun(past + [e], next, events[1..], g, r);
      assert past + events == past + [e] + events[1..];
    }
  }

  /**
   What every request of a run is told. It succeeds exactly when its request was answered with
   success, and any error but a 401 fails it. Login and refresh requests are sent once and a 401
   fails them. Any other request that did not lead fails on 401s only when a refresh failed.
   Requests are on the wire exactly as often as events put them there.
   */
  lemma {:induction false} RequestsAreToldTheTruth(n: nat, auth: set<nat>, events: seq<Event>, h: History, r: nat)
    requires Execute(Opening(n, auth), events) == Some(h) && r < n
    ensures r < |h.client.requests|
    ensures var q := h.client.requests[r];
            && q.isAuth == (r in auth)
            && q.sends == Sendings(events, r)
            && (q.phase == Done(true) <==> Answer(r, Success) in events)
            && (Answer(r, OtherError) in events ==> q.phase == Done(false))
            && (q.phase == Done(false) ==> Answer(r, OtherError) in events || Answer(r, Unauthorized) in events)
            && (r in auth ==> q.sends <= 1 && (Answer(r, Unauthorized) in events ==> q.phase == Done(false)))
            && (q.phase == Done(false) && r !in auth && !q.retried && Answer(r, OtherError) !in events ==> false in h.outcomes)
  {
    OpeningIsSound(n, auth);
    StoryRun([], Opening(n, auth), events, h, r);
    assert [] + events == events;
    hide Execute, Sendings;
  }

  /** No request is ever stuck: while one is not done, some event can happen. */
  lemma {:induction false} NoDeadlock(n: nat, auth: set<nat>, events: seq<Event>, h: History, r: nat)
    requires Execute(Opening(n, auth), events) == Some(h)
    requires r < |h.client.requests| && !h.client.requests[r].phase.Done?
    ensures exists e :: Enabled(h.client, e)
  {
    SingleFlightRefresh(n, auth, events, h);
    match h.client.requests[r].phase
    case Unsent => assert Enabled(h.client, Send(r));
    case InFlight => assert Enabled(h.client, Answer(r, Success));
    case Released => assert Enabled(h.client, Resend(r));
    case Leading => assert Enabled(h.client, RefreshEnds(r, true));
    case Waiting(_) =>
      assert h.client.isRefreshing;
      var s :| LeaderIs(h.client, s);
      assert Enabled(h.client, RefreshEnds(s, true));
  }
}
