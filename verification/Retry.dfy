/** Finding a shard's leader: bounded retries around a cached guess that survives cancelled calls. */
module RetrySpec {
  import opened Numeric
  import opened StoreSpec

  type Status = string

  datatype RouterError = Rpc(status: Status) | ShardUnreachable

  /** What one attempt yields: a response (with an empty hint when served), an error, or no answer in time. */
  datatype Outcome<+R> = Response(hint: string, body: R) | Failed(status: Status) | Elapsed {
    predicate Served() {
      Response? && hint == ""
    }
  }

  /** The replicas' behaviour during a call: attempt number and replica index to outcome. */
  type Env<!R> = (nat, nat) -> Outcome<R>

  const MAX_LEADER_ATTEMPTS := 4

  function AddrIndex(addrs: seq<string>, a: string): (p: Option<nat>)
    ensures p.Some? ==> p.value < |addrs| && addrs[p.value] == a
    ensures p.None? ==> a !in addrs
  {
    if addrs == [] then None
    else if addrs[0] == a then Some(0)
    else match AddrIndex(addrs[1..], a) case Some(i) => Some(i + 1) case None => None
  }

  /** Where to go after an attempt at `idx` that was not served. */
  function NextIndex<R>(addrs: seq<string>, idx: nat, o: Outcome<R>): (next: nat)
    requires idx < |addrs|
    ensures next < |addrs|
  {
    var onward := (idx + 1) % |addrs|;
    match o
    case Response(hint, _) => (match AddrIndex(addrs, hint) case Some(i) => i case None => onward)
    case _ => onward
  }

  function NextError<R>(before: Option<RouterError>, o: Outcome<R>): Option<RouterError> {
    match o
    case Response(_, _) => before
    case Failed(status) => Some(Rpc(status))
    case Elapsed => Some(ShardUnreachable)
  }

  datatype Progress<+R> = Progress(idx: nat, failed: nat, lastErr: Option<RouterError>, served: Option<R>)

  /** The state after `m` attempts starting at `idx`; a served attempt ends the call. */
  function Attempts<R>(addrs: seq<string>, env: Env<R>, idx: nat, m: nat): (p: Progress<R>)
    requires idx < |addrs|
    ensures p.idx < |addrs| && p.failed <= m && (p.served.None? ==> p.failed == m)
  {
    if m == 0 then Progress(idx, 0, None, None) else
      var p := Attempts(addrs, env, idx, m - 1);
      if p.served.Some? then p else
        var o := env(m - 1, p.idx);
        if o.Served() then p.(served := Some(o.body))
        else Progress(NextIndex(addrs, p.idx, o), p.failed + 1, NextError(p.lastErr, o), None)
  }

  lemma {:induction false} AddrIndexIsFirst(addrs: seq<string>, a: string)
    ensures AddrIndex(addrs, a).Some? <==> a in addrs
    ensures AddrIndex(addrs, a).Some? ==> a !in addrs[..AddrIndex(addrs, a).value]
  {
    if addrs != [] {
      AddrIndexIsFirst(addrs[1..], a);
      assert addrs == [addrs[0]] + addrs[1..];
    }
  }

  lemma {:induction false} ServedStays<R>(addrs: seq<string>, env: Env<R>, idx: nat, m: nat, m': nat)
    requires idx < |addrs| && m <= m' && Attempts(addrs, env, idx, m).served.Some?
    ensures Attempts(addrs, env, idx, m') == Attempts(addrs, env, idx, m)
    decreases m'
  {
    if m < m' {
      ServedStays(addrs, env, idx, m, m' - 1);
    }
  }

  /** The replica attempt number a goes to. */
  function Tried<R>(addrs: seq<string>, env: Env<R>, idx: nat, a: nat): nat
    requires idx < |addrs|
  {
    Attempts(addrs, env, idx, a).idx
  }

  /** A call's answer is the body of some attempt that was served. */
  lemma {:induction false} ServedByAttempt<R>(addrs: seq<string>, env: Env<R>, idx: nat, m: nat) returns (a: nat)
    requires idx < |addrs| && Attempts(addrs, env, idx, m).served.Some?
    ensures a < m && Tried(addrs, env, idx, a) < |addrs|
    ensures var o := env(a, Tried(addrs, env, idx, a));
      o.Served() && Attempts(addrs, env, idx, m).served == Some(o.body)
  {
    if Attempts(addrs, env, idx, m - 1).served.Some? {
      a := ServedByAttempt(addrs, env, idx, m - 1);
    } else {
      a := m - 1;
    }
  }

  /** Attempt a ended with error e, and only redirects came after it. */
  ghost predicate IsLastError<R(!new)>(addrs: seq<string>, env: Env<R>, idx: nat, m: nat, a: nat, e: RouterError)
    requires idx < |addrs|
  {
    var o := env(a, Tried(addrs, env, idx, a));
    && ((o.Failed? && e == Rpc(o.status)) || (o.Elapsed? && e == ShardUnreachable))
    && forall b: nat :: a < b < m ==> env(b, Tried(addrs, env, idx, b)).Response?
  }

  /** An unserved call carries the error of the last attempt that ended in one, and none if all were redirects. */
  lemma {:induction false} CarriesLastError<R(!new)>(addrs: seq<string>, env: Env<R>, idx: nat, m: nat)
    requires idx < |addrs| && Attempts(addrs, env, idx, m).served.None?
    ensures var e := Attempts(addrs, env, idx, m).lastErr;
      && (e.None? <==> forall a: nat :: a < m ==> env(a, Tried(addrs, env, idx, a)).Response?)
      && (e.Some? ==> exists a: nat :: a < m && IsLastError(addrs, env, idx, m, a, e.value))
  {
    if m > 0 {
      CarriesLastError(addrs, env, idx, m - 1);
      var before, e := Attempts(addrs, env, idx, m - 1).lastErr, Attempts(addrs, env, idx, m).lastErr;
      if !env(m - 1, Tried(addrs, env, idx, m - 1)).Response? {
        assert IsLastError(addrs, env, idx, m, m - 1, e.value);
      } else if before.Some? {
        var a: nat :| a < m - 1 && IsLastError(addrs, env, idx, m - 1, a, before.value);
        assert IsLastError(addrs, env, idx, m, a, e.value);
      }
    }
  }

  // ---- One live leader ----

  /** Replica `leader` serves; every other one errs, hangs, or redirects to it or to nobody we know. */
  ghost predicate OneLeader<R(!new)>(addrs: seq<string>, env: Env<R>, leader: nat) {
    && leader < |addrs|
    && forall a: nat, i: nat :: i < |addrs| ==>
        && (env(a, i).Served() <==> i == leader)
        && (i != leader && env(a, i).Response? ==> AddrIndex(addrs, env(a, i).hint) in {Some(leader), None})
  }

  /** Steps forward around the ring from `idx` to `leader`. */
  function Distance(n: nat, idx: nat, leader: nat): (d: nat)
    requires idx < n && leader < n
    ensures d < n && (d == 0 <==> idx == leader)
  {
    if idx <= leader then leader - idx else leader + n - idx
  }

  lemma OnwardIsCloser(n: nat, idx: nat, leader: nat)
    requires idx < n && leader < n && idx != leader
    ensures Distance(n, (idx + 1) % n, leader) == Distance(n, idx, leader) - 1
  {
    if idx + 1 == n {
      assert (idx + 1) % n == 0;
    } else {
      assert (idx + 1) % n == idx + 1;
    }
  }

  /** The potential: every failed attempt brings the cached index strictly closer to the leader. */
  lemma {:induction false} AttemptsApproach<R(!new)>(addrs: seq<string>, env: Env<R>, leader: nat, idx: nat, m: nat)
    requires OneLeader(addrs, env, leader) && idx < |addrs|
    ensures var p := Attempts(addrs, env, idx, m);
      && p.failed + Distance(|addrs|, p.idx, leader) <= Distance(|addrs|, idx, leader)
      && (p.served.Some? ==> p.idx == leader && exists a: nat :: a < m && p.served.value == env(a, leader).body)
  {
    if m > 0 {
      AttemptsApproach(addrs, env, leader, idx, m - 1);
      var p := Attempts(addrs, env, idx, m - 1);
      if p.served.None? && p.idx != leader {
        assert !env(m - 1, p.idx).Served();
        OnwardIsCloser(|addrs|, p.idx, leader);
      }
    }
  }

  /** A redirect to the leader is followed at once: the next attempt is served. */
  lemma RedirectIsFollowed<R(!new)>(addrs: seq<string>, env: Env<R>, leader: nat, idx: nat)
    requires OneLeader(addrs, env, leader) && idx < |addrs| && idx != leader
    requires env(0, idx).Response? && AddrIndex(addrs, env(0, idx).hint) == Some(leader)
    ensures Attempts(addrs, env, idx, 2).served == Some(env(1, leader).body)
  {
    assert Attempts(addrs, env, idx, 1) == Progress(leader, 1, None, None);
  }

  /** One uncancelled call succeeds against every such behaviour exactly when the leader is
      at most three steps ahead; with four replicas or fewer that is always so. */
  lemma CallSucceedsIff<R(!new)>(addrs: seq<string>, leader: nat, idx: nat, body: R)
    requires idx < |addrs| && leader < |addrs|
    ensures (forall env: Env<R> :: OneLeader(addrs, env, leader) ==>
               Attempts(addrs, env, idx, MAX_LEADER_ATTEMPTS).served.Some?)
       <==> Distance(|addrs|, idx, leader) < MAX_LEADER_ATTEMPTS
  {
    if Distance(|addrs|, idx, leader) < MAX_LEADER_ATTEMPTS {
      forall env: Env<R> | OneLeader(addrs, env, leader)
        ensures Attempts(addrs, env, idx, MAX_LEADER_ATTEMPTS).served.Some?
      {
        AttemptsApproach(addrs, env, leader, idx, MAX_LEADER_ATTEMPTS);
      }
    } else {
      var hanging: Env<R> := (a: nat, i: nat) => if i == leader then Response("", body) else Elapsed;
      assert OneLeader(addrs, hanging, leader);
      HangingWalk(addrs, hanging, leader, idx, MAX_LEADER_ATTEMPTS);
    }
  }

  /** Every replica but the leader hangs. */
  ghost predicate Hangs<R>(env: Env<R>, leader: nat) {
    forall a: nat, i: nat :: i != leader ==> env(a, i) == Elapsed
  }

  lemma {:induction false} HangingWalk<R>(addrs: seq<string>, env: Env<R>, leader: nat, idx: nat, m: nat)
    requires idx < |addrs| && leader < |addrs| && m <= Distance(|addrs|, idx, leader)
    requires Hangs(env, leader)
    ensures var p := Attempts(addrs, env, idx, m);
      p.served.None? && Distance(|addrs|, p.idx, leader) == Distance(|addrs|, idx, leader) - m
  {
    if m > 0 {
      HangingWalk(addrs, env, leader, idx, m - 1);
      OnwardIsCloser(|addrs|, Attempts(addrs, env, idx, m - 1).idx, leader);
    }
  }

  /** Two replicas whose stale redirects name each other absorb a call for good, whoever leads:
      the assumption on redirects above cannot be dropped. */
  lemma {:induction false} StaleRedirectsTrap<R>(addrs: seq<string>, env: Env<R>, x: nat, y: nat, m: nat)
    requires x < |addrs| && y < |addrs|
    requires forall t: nat :: env(t, x).Response? && !env(t, x).Served() && AddrIndex(addrs, env(t, x).hint) == Some(y)
    requires forall t: nat :: env(t, y).Response? && !env(t, y).Served() && AddrIndex(addrs, env(t, y).hint) == Some(x)
    ensures var p := Attempts(addrs, env, x, m); p.served.None? && p.idx in {x, y}
  {
    if m > 0 {
      StaleRedirectsTrap(addrs, env, x, y, m - 1);
    }
  }

  // ---- Sequences of calls ----

  /** A call and the number of attempts it completes before its caller drops it (4 or more: never dropped). */
  datatype Call<!R> = Call(env: Env<R>, cutoff: nat)

  function AfterCall<R>(addrs: seq<string>, hint: nat, call: Call<R>): Progress<R>
    requires hint < |addrs|
  {
    Attempts(addrs, call.env, hint, Min(call.cutoff, MAX_LEADER_ATTEMPTS))
  }

  /** The cached hint after sequential calls, and the failed attempts they completed in all. */
  function AfterCalls<R>(addrs: seq<string>, hint: nat, calls: seq<Call<R>>): (r: (nat, nat))
    requires hint < |addrs|
    ensures r.0 < |addrs|
  {
    if calls == [] then (hint, 0) else
      var (before, failed) := AfterCalls(addrs, hint, calls[..|calls| - 1]);
      var p := AfterCall(addrs, before, calls[|calls| - 1]);
      (p.idx, failed + p.failed)
  }

  /** Any sequence of calls, each cancelled at any point, completes at most n - 1 failed attempts in total. */
  lemma {:induction false} TotalFailuresBounded<R(!new)>(addrs: seq<string>, leader: nat, hint: nat,
                                                         calls: seq<Call<R>>)
    requires hint < |addrs| && leader < |addrs|
    requires forall i :: 0 <= i < |calls| ==> OneLeader(addrs, calls[i].env, leader)
    ensures var (hint', failed) := AfterCalls(addrs, hint, calls);
      failed + Distance(|addrs|, hint', leader) <= Distance(|addrs|, hint, leader) <= |addrs| - 1
  {
    if calls != [] {
      var n := |calls| - 1;
      TotalFailuresBounded(addrs, leader, hint, calls[..n]);
      var (before, _) := AfterCalls(addrs, hint, calls[..n]);
      AttemptsApproach(addrs, calls[n].env, leader, before, Min(calls[n].cutoff, MAX_LEADER_ATTEMPTS));
    }
  }

  /** The bound is attained: calls dropped after one attempt against replicas that hang walk the whole way, one failed
      attempt each. */
  lemma {:induction false} TotalFailuresAttained<R>(addrs: seq<string>, leader: nat, hint: nat, calls: seq<Call<R>>)
    requires hint < |addrs| && leader < |addrs| && |calls| <= Distance(|addrs|, hint, leader)
    requires forall i :: 0 <= i < |calls| ==> Hangs(calls[i].env, leader) && calls[i].cutoff == 1
    ensures var (hint', failed) := AfterCalls(addrs, hint, calls);
      failed == |calls| && Distance(|addrs|, hint', leader) == Distance(|addrs|, hint, leader) - |calls|
  {
    if calls != [] {
      var n := |calls| - 1;
      TotalFailuresAttained(addrs, leader, hint, calls[..n]);
      var (before, _) := AfterCalls(addrs, hint, calls[..n]);
      HangingWalk(addrs, calls[n].env, leader, before, 1);
    }
  }

  // ---- Deadlines ----

  /** Time taken by the first m attempts. */
  function Elapse(dur: nat -> nat, m: nat): nat {
    if m == 0 then 0 else Elapse(dur, m - 1) + dur(m - 1)
  }

  /** How many of the first m attempts complete before a deadline. */
  function CompletedBy(dur: nat -> nat, deadline: nat, m: nat): (c: nat)
    ensures c <= m
  {
    if m == 0 || Elapse(dur, m) < deadline then m else CompletedBy(dur, deadline, m - 1)
  }

  lemma {:induction false} ElapseBounded(dur: nat -> nat, t: nat, m: nat)
    requires forall a :: dur(a) <= t
    ensures Elapse(dur, m) <= m * t
  {
    if m > 0 {
      ElapseBounded(dur, t, m - 1);
      assert m * t == (m - 1) * t + t;
    }
  }

  lemma {:induction false} ElapseAtLeast(dur: nat -> nat, t: nat, m: nat)
    requires forall a :: dur(a) >= t
    ensures Elapse(dur, m) >= m * t
  {
    if m > 0 {
      ElapseAtLeast(dur, t, m - 1);
      assert m * t == (m - 1) * t + t;
    }
  }

  /** The attempts that complete are in time, and the next one would not be. */
  lemma {:induction false} CompletedByExact(dur: nat -> nat, deadline: nat, m: nat)
    ensures var c := CompletedBy(dur, deadline, m);
      && (c > 0 ==> Elapse(dur, c) < deadline)
      && (c < m ==> deadline <= Elapse(dur, c + 1))
  {
    if m > 0 && Elapse(dur, m) >= deadline {
      CompletedByExact(dur, deadline, m - 1);
    }
  }

  lemma {:induction false} CompletedByAtLeast(dur: nat -> nat, deadline: nat, k: nat, m: nat)
    requires k <= m && Elapse(dur, k) < deadline
    ensures CompletedBy(dur, deadline, m) >= k
  {
    if k < m {
      CompletedByAtLeast(dur, deadline, k, m - 1);
    }
  }

  lemma {:induction false} DeadlineLeavesAttempts(dur: nat -> nat, t: nat, deadline: nat, m: nat, of: nat)
    requires (forall a :: dur(a) <= t) && deadline > m * t && m <= of
    ensures CompletedBy(dur, deadline, of) >= m
  {
    if of > m {
      DeadlineLeavesAttempts(dur, t, deadline, m, of - 1);
    } else {
      ElapseBounded(dur, t, m);
    }
  }

  /** A search against one shard: replica behaviour and the time each attempt takes. */
  datatype TimedCall<!R> = TimedCall(env: Env<R>, dur: nat -> nat) {
    function Under(deadline: nat): Call<R> {
      Call(env, CompletedBy(dur, deadline, MAX_LEADER_ATTEMPTS))
    }
  }

  /** One of the first k attempts is served, and they all end before the deadline. */
  predicate ServedInTime<R>(addrs: seq<string>, hint: nat, call: TimedCall<R>, deadline: nat, k: nat)
    requires hint < |addrs|
  {
    Elapse(call.dur, k) < deadline && Attempts(addrs, call.env, hint, k).served.Some?
  }

  /** A search is answered exactly when one of its at most four attempts is served before the deadline. */
  lemma AnsweredInTimeIff<R>(addrs: seq<string>, hint: nat, call: TimedCall<R>, deadline: nat)
    requires hint < |addrs|
    ensures AfterCall(addrs, hint, call.Under(deadline)).served.Some?
       <==> exists k: nat :: k <= MAX_LEADER_ATTEMPTS && ServedInTime(addrs, hint, call, deadline, k)
  {
    var c := CompletedBy(call.dur, deadline, MAX_LEADER_ATTEMPTS);
    CompletedByExact(call.dur, deadline, MAX_LEADER_ATTEMPTS);
    if AfterCall(addrs, hint, call.Under(deadline)).served.Some? {
      assert c > 0 && ServedInTime(addrs, hint, call, deadline, c);
    }
    if k: nat :| k <= MAX_LEADER_ATTEMPTS && ServedInTime(addrs, hint, call, deadline, k) {
      CompletedByAtLeast(call.dur, deadline, k, MAX_LEADER_ATTEMPTS);
      ServedStays(addrs, call.env, hint, k, c);
    }
  }

  /** When no single attempt fits the deadline no search is answered, whoever leads. */
  lemma SlowSearchFails<R>(addrs: seq<string>, hint: nat, call: TimedCall<R>, deadline: nat)
    requires hint < |addrs| && forall a :: call.dur(a) >= deadline
    ensures AfterCall(addrs, hint, call.Under(deadline)).served.None?
  {
    AnsweredInTimeIff(addrs, hint, call, deadline);
    forall k: nat | k > 0 ensures Elapse(call.dur, k) >= deadline {
      ElapseAtLeast(call.dur, deadline, k);
      assert k * deadline == (k - 1) * deadline + deadline;
    }
  }

  /** The cached hint after the first n of a sequence of searches. */
  function HintAfter<R>(addrs: seq<string>, hint: nat, deadline: nat, calls: seq<TimedCall<R>>, n: nat): (h: nat)
    requires hint < |addrs| && n <= |calls|
    ensures h < |addrs|
  {
    if n == 0 then hint
    else AfterCall(addrs, HintAfter(addrs, hint, deadline, calls, n - 1), calls[n - 1].Under(deadline)).idx
  }

  /** How many of them failed. */
  function Failures<R>(addrs: seq<string>, hint: nat, deadline: nat, calls: seq<TimedCall<R>>, n: nat): nat
    requires hint < |addrs| && n <= |calls|
  {
    if n == 0 then 0 else
      var p := AfterCall(addrs, HintAfter(addrs, hint, deadline, calls, n - 1), calls[n - 1].Under(deadline));
      Failures(addrs, hint, deadline, calls, n - 1) + if p.served.Some? then 0 else 1
  }

  ghost predicate Roomy<R(!new)>(addrs: seq<string>, leader: nat, call: Call<R>, m: nat) {
    OneLeader(addrs, call.env, leader) && m <= Min(call.cutoff, MAX_LEADER_ATTEMPTS)
  }

  /** f * m as a sum, which keeps the induction below linear. */
  function Times(f: nat, m: nat): nat {
    if f == 0 then 0 else Times(f - 1, m) + m
  }

  lemma {:induction false} TimesIsProduct(f: nat, m: nat)
    ensures Times(f, m) == f * m
  {
    if f > 0 {
      TimesIsProduct(f - 1, m);
      assert f * m == (f - 1) * m + m;
    }
  }

  /** One search: each failed one moves the hint at least m steps closer. */
  lemma SearchUsesRoom<R(!new)>(addrs: seq<string>, leader: nat, hint: nat, call: Call<R>, m: nat,
                                failures: nat, room: nat)
    requires hint < |addrs| && Roomy(addrs, leader, call, m)
    requires Times(failures, m) + Distance(|addrs|, hint, leader) <= room
    ensures var p := AfterCall(addrs, hint, call);
      var now := if p.served.Some? then failures else failures + 1;
      Times(now, m) + Distance(|addrs|, p.idx, leader) <= room
  {
    AttemptsApproach(addrs, call.env, leader, hint, Min(call.cutoff, MAX_LEADER_ATTEMPTS));
  }

  /** The first n searches used up at least m steps for every one that failed. */
  ghost predicate UsedRoom<R>(addrs: seq<string>, leader: nat, hint: nat, deadline: nat, calls: seq<TimedCall<R>>,
                              n: nat, m: nat)
    requires hint < |addrs| && leader < |addrs| && n <= |calls|
  {
    Times(Failures(addrs, hint, deadline, calls, n), m)
    + Distance(|addrs|, HintAfter(addrs, hint, deadline, calls, n), leader) <= Distance(|addrs|, hint, leader)
  }

  lemma NextSearchUsesRoom<R(!new)>(addrs: seq<string>, leader: nat, hint: nat, deadline: nat,
                                    calls: seq<TimedCall<R>>, n: nat, m: nat)
    requires hint < |addrs| && leader < |addrs| && 0 < n <= |calls|
    requires UsedRoom(addrs, leader, hint, deadline, calls, n - 1, m)
    requires Roomy(addrs, leader, calls[n - 1].Under(deadline), m)
    ensures UsedRoom(addrs, leader, hint, deadline, calls, n, m)
  {
    SearchUsesRoom(addrs, leader, HintAfter(addrs, hint, deadline, calls, n - 1), calls[n - 1].Under(deadline), m,
                   Failures(addrs, hint, deadline, calls, n - 1), Distance(|addrs|, hint, leader));
  }

  /** With room for m attempts in each deadline, every failed search uses up at least m steps. */
  lemma {:induction false} FailedSearchesUseRoom<R(!new)>(addrs: seq<string>, leader: nat, hint: nat, deadline: nat,
                                                          calls: seq<TimedCall<R>>, n: nat, m: nat)
    requires hint < |addrs| && leader < |addrs| && n <= |calls|
    requires forall i :: 0 <= i < |calls| ==> Roomy(addrs, leader, calls[i].Under(deadline), m)
    ensures UsedRoom(addrs, leader, hint, deadline, calls, n, m)
  {
    if n > 0 {
      FailedSearchesUseRoom(addrs, leader, hint, deadline, calls, n - 1, m);
      NextSearchUsesRoom(addrs, leader, hint, deadline, calls, n, m);
    }
  }

  /** If the deadline leaves room for m attempts of at most t each, f failed searches satisfy f * m <= n - 1. */
  lemma FailedSearchesBounded<R(!new)>(addrs: seq<string>, leader: nat, hint: nat, deadline: nat,
                                       calls: seq<TimedCall<R>>, t: nat, m: nat)
    requires hint < |addrs| && leader < |addrs| && 1 <= m <= MAX_LEADER_ATTEMPTS && deadline > m * t
    requires forall i :: 0 <= i < |calls| ==> OneLeader(addrs, calls[i].env, leader)
    requires forall i :: 0 <= i < |calls| ==> forall a :: calls[i].dur(a) <= t
    ensures Failures(addrs, hint, deadline, calls, |calls|) * m <= |addrs| - 1
  {
    forall i | 0 <= i < |calls| ensures Roomy(addrs, leader, calls[i].Under(deadline), m) {
      DeadlineLeavesAttempts(calls[i].dur, t, deadline, m, MAX_LEADER_ATTEMPTS);
    }
    FailedSearchesUseRoom(addrs, leader, hint, deadline, calls, |calls|, m);
    TimesIsProduct(Failures(addrs, hint, deadline, calls, |calls|), m);
  }

  /** The bound is attained too: when a deadline has room for one attempt only and the other replicas hang, every
      search fails until the hint has walked to the leader. */
  lemma {:induction false} FailedSearchesAttained<R>(addrs: seq<string>, leader: nat, hint: nat, deadline: nat,
                                                     calls: seq<TimedCall<R>>, n: nat, t: nat)
    requires hint < |addrs| && leader < |addrs| && n <= |calls| && n <= Distance(|addrs|, hint, leader)
    requires t < deadline <= 2 * t
    requires forall i :: 0 <= i < |calls| ==> Hangs(calls[i].env, leader) && forall a :: calls[i].dur(a) == t
    ensures Failures(addrs, hint, deadline, calls, n) == n
    ensures Distance(|addrs|, HintAfter(addrs, hint, deadline, calls, n), leader) == Distance(|addrs|, hint, leader) - n
  {
    if n > 0 {
      FailedSearchesAttained(addrs, leader, hint, deadline, calls, n - 1, t);
      RoomForOne(calls[n - 1].dur, t, deadline);
      HangingWalk(addrs, calls[n - 1].env, leader, HintAfter(addrs, hint, deadline, calls, n - 1), 1);
    }
  }

  lemma RoomForOne(dur: nat -> nat, t: nat, deadline: nat)
    requires t < deadline <= 2 * t && forall a :: dur(a) == t
    ensures CompletedBy(dur, deadline, MAX_LEADER_ATTEMPTS) == 1
  {
    var c := CompletedBy(dur, deadline, MAX_LEADER_ATTEMPTS);
    assert Elapse(dur, 1) == t;
    CompletedByAtLeast(dur, deadline, 1, MAX_LEADER_ATTEMPTS);
    CompletedByExact(dur, deadline, MAX_LEADER_ATTEMPTS);
    assert Elapse(dur, 2) == 2 * t;
  }

  const READ_ATTEMPT_TIMEOUT_MS := 400
  const DEFAULT_DEADLINE_MS := 2000

  /** With the shipped settings the fan-out deadline never cuts a call short, and a shard of
      up to four replicas with one live leader never fails a search. */
  lemma ShippedTimeoutsSuffice<R(!new)>(addrs: seq<string>, leader: nat, hint: nat, call: TimedCall<R>)
    requires hint < |addrs| && leader < |addrs| && OneLeader(addrs, call.env, leader)
    requires forall a :: call.dur(a) <= READ_ATTEMPT_TIMEOUT_MS
    ensures MAX_LEADER_ATTEMPTS * READ_ATTEMPT_TIMEOUT_MS == 4 * 400 < 2000 == DEFAULT_DEADLINE_MS
    ensures call.Under(DEFAULT_DEADLINE_MS).cutoff == MAX_LEADER_ATTEMPTS
    ensures |addrs| <= 4 ==> AfterCall(addrs, hint, call.Under(DEFAULT_DEADLINE_MS)).served.Some?
  {
    DeadlineLeavesAttempts(call.dur, READ_ATTEMPT_TIMEOUT_MS, DEFAULT_DEADLINE_MS,
                           MAX_LEADER_ATTEMPTS, MAX_LEADER_ATTEMPTS);
    AttemptsApproach(addrs, call.env, leader, hint, MAX_LEADER_ATTEMPTS);
  }
}

module Retry {
  import opened Numeric
  import opened StoreSpec
  import opened RetrySpec

  /** How a call ends for its caller. */
  datatype CallResult<+R> = Done(body: R) | GaveUp(error: RouterError) | Cancelled

  class ShardReplicaSet<R> {
    const addrs: seq<string>
    var leaderHint: nat

    constructor (addrs: seq<string>)
      ensures this.addrs == addrs && leaderHint == 0
    {
      this.addrs := addrs;
      leaderHint := 0;
    }

    method FindAddr(a: string) returns (p: Option<nat>)
      ensures p == AddrIndex(addrs, a)
    {
      for i := 0 to |addrs|
        invariant AddrIndex(addrs, a)
          == match AddrIndex(addrs[i..], a) case Some(j) => Some(i + j) case None => None
      {
        assert addrs[i..][1..] == addrs[i + 1..];
        if addrs[i] == a {
          return Some(i);
        }
      }
      p := None;
    }

    /** At most four attempts; `cutoff` of them complete if the caller drops the call early.
        The hint is stored after every attempt, so a dropped call keeps its progress. */
    method CallWithRetry(env: Env<R>, cutoff: nat) returns (r: CallResult<R>)
      requires |addrs| > 0
      modifies this`leaderHint
      ensures var p := AfterCall(addrs, old(leaderHint) % |addrs|, Call(env, cutoff));
        && leaderHint == (if cutoff == 0 then old(leaderHint) else p.idx)
        && r == (match p.served
                 case Some(body) => Done(body)
                 case None =>
                   if cutoff < MAX_LEADER_ATTEMPTS then Cancelled
                   else GaveUp(if p.lastErr.Some? then p.lastErr.value else ShardUnreachable))
    {
      var idx: nat := leaderHint % |addrs|;
      ghost var start := idx;
      var lastErr: Option<RouterError> := None;
      for attempt := 0 to MAX_LEADER_ATTEMPTS
        invariant attempt <= cutoff && idx < |addrs|
        invariant Attempts(addrs, env, start, attempt) == Progress(idx, attempt, lastErr, None)
        invariant leaderHint == if attempt == 0 then old(leaderHint) else idx
      {
        if attempt == cutoff {
          return Cancelled;
        }
        var outcome := env(attempt, idx);
        ghost var before := Attempts(addrs, env, start, attempt);
        var next: nat := (idx + 1) % |addrs|;
        match outcome {
          case Response(hint, body) =>
            if hint == "" {
              leaderHint := idx;
              ServedStays(addrs, env, start, attempt + 1, Min(cutoff, MAX_LEADER_ATTEMPTS));
              return Done(body);
            }
            var known := FindAddr(hint);
            if known.Some? {
              next := known.value;
            }
          case Failed(status) =>
            lastErr := Some(Rpc(status));
          case Elapsed =>
            lastErr := Some(ShardUnreachable);
        }
        idx := next;
        leaderHint := idx;
      }
      r := GaveUp(if lastErr.Some? then lastErr.value else ShardUnreachable);
    }
  }
}
