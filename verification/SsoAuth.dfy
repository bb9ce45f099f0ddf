/** Single-flight session verification: a time-limited cache in front of a remote check,
    with one lock per session. Requests are coroutines; each method below is one stretch of
    code between two awaits, so a sequence of calls is an arbitrary interleaving. */
module SsoAuth {
  import opened Wrappers

  /** The remote answer. A successful answer may lack a user id. */
  datatype Verdict = Unavailable | Invalid | Verified(user: Option<string>, isAdmin: bool)

  datatype Entry = Entry(user: Option<string>, isAdmin: bool, expires: int)

  datatype Response = Unauthorized | ServiceUnavailable | Forbidden | Passed(user: string, isAdmin: bool)

  datatype Phase =
    | AtLock(session: string)                  // waiting for the session's lock
    | Verifying(session: string)               // holding it, remote call in flight
    | Answered(session: string, response: Response)
    | Aborted(session: string)                 // cancelled or failed with an exception

  /** One remote call: who made it, when it started, and how it ended. */
  datatype Call = Call(request: nat, started: int, end: Option<CallEnd>)

  datatype CallEnd = CallEnd(time: int, verdict: Option<Verdict>)

  // ---------------------------------------------------------------- one session's history

  predicate IsSuccess(c: Call) {
    c.end.Some? && c.end.value.verdict.Some? && c.end.value.verdict.value.Verified?
    && c.end.value.verdict.value.user.Some?
  }

  /** The earliest time at which a call may follow `c`. */
  function FreeAt(c: Call, ttl: nat): int
    requires c.end.Some?
  {
    c.end.value.time + if IsSuccess(c) then ttl else 0
  }

  /** Each call starts after the one before it has ended and, if that one named a user,
      after its cache entry has expired. */
  ghost predicate Serial(calls: seq<Call>, ttl: nat) {
    calls == [] ||
    (var n := |calls| - 1;
     && Serial(calls[..n], ttl)
     && (calls[n].end.Some? ==> calls[n].started <= calls[n].end.value.time)
     && (n > 0 ==> calls[n - 1].end.Some? && FreeAt(calls[n - 1], ttl) <= calls[n].started))
  }

  /** Single flight, over the whole history: of any two calls of a session the earlier one
      had ended before the later one started, and if it named a user, its time in the cache
      was over. */
  lemma {:induction false} SingleFlight(calls: seq<Call>, ttl: nat, i: nat, j: nat)
    requires Serial(calls, ttl) && i < j < |calls|
    ensures calls[i].end.Some? && calls[i].end.value.time <= calls[j].started
    ensures IsSuccess(calls[i]) ==> calls[i].end.value.time + ttl <= calls[j].started
    decreases |calls|
  {
    var init := calls[..|calls| - 1];
    if j < |init| {
      SingleFlight(init, ttl, i, j);
    } else if i < j - 1 {
      SingleFlight(init, ttl, i, j - 1);
      assert init[j - 1] == calls[j - 1] && Serial(init, ttl);
    }
  }

  ghost predicate NoOverlap(calls: seq<Call>, ttl: nat) {
    forall i, j :: 0 <= i < j < |calls| ==>
      && calls[i].end.Some? && calls[i].end.value.time <= calls[j].started
      && (IsSuccess(calls[i]) ==> calls[i].end.value.time + ttl <= calls[j].started)
  }

  lemma SerialNoOverlap(calls: seq<Call>, ttl: nat)
    requires Serial(calls, ttl)
    ensures NoOverlap(calls, ttl)
  {
    forall i, j | 0 <= i < j < |calls|
      ensures calls[i].end.Some? && calls[i].end.value.time <= calls[j].started
      ensures IsSuccess(calls[i]) ==> calls[i].end.value.time + ttl <= calls[j].started
    {
      SingleFlight(calls, ttl, i, j);
    }
  }

  /** How the lock, the cache entry and the clock stand to the last call. */
  ghost predicate SessionSound(calls: seq<Call>, holder: Option<nat>, entry: Option<Entry>, now: int, ttl: nat) {
    && Serial(calls, ttl)
    && if calls == [] then holder.None?
       else
         var last := calls[|calls| - 1];
         && last.started <= now
         && holder == (if last.end.None? then Some(last.request) else None)
         && (last.end.Some? ==> last.end.value.time <= now)
         && (last.end.Some? && IsSuccess(last) ==>
               FreeAt(last, ttl) <= now || (entry.Some? && entry.value.user.Some? && FreeAt(last, ttl) <= entry.value.expires))
  }

  /** `_cache_get`: an entry counts while it has not expired and names a user. */
  predicate Hits(entry: Option<Entry>, now: int) {
    entry.Some? && entry.value.expires > now && entry.value.user.Some?
  }

  lemma StartCall(calls: seq<Call>, entry: Option<Entry>, now: int, ttl: nat, r: nat)
    requires SessionSound(calls, None, entry, now, ttl) && !Hits(entry, now)
    ensures SessionSound(calls + [Call(r, now, None)], Some(r), entry, now, ttl)
  {
    assert (calls + [Call(r, now, None)])[..|calls|] == calls;
  }

  /** `_cache_set`, only after a verified answer. */
  function EntryAfter(entry: Option<Entry>, verdict: Option<Verdict>, expires: int): Option<Entry> {
    if verdict.Some? && verdict.value.Verified? then Some(Entry(verdict.value.user, verdict.value.isAdmin, expires)) else entry
  }

  function EndLast(calls: seq<Call>, now: int, verdict: Option<Verdict>): seq<Call>
    requires calls != []
  {
    calls[|calls| - 1 := calls[|calls| - 1].(end := Some(CallEnd(now, verdict)))]
  }

  lemma EndCall(calls: seq<Call>, r: nat, entry: Option<Entry>, now: int, ttl: nat, verdict: Option<Verdict>)
    requires SessionSound(calls, Some(r), entry, now, ttl)
    ensures calls != [] && calls[|calls| - 1].request == r && calls[|calls| - 1].end.None?
    ensures SessionSound(EndLast(calls, now, verdict), None, EntryAfter(entry, verdict, now + ttl), now, ttl)
  {
    assert EndLast(calls, now, verdict)[..|calls| - 1] == calls[..|calls| - 1];
  }

  // ---------------------------------------------------------------- the middleware

  function Lookup<T>(m: map<string, T>, session: string): Option<T> {
    if session in m then Some(m[session]) else None
  }

  /** Every session is sound, and the verifying requests are exactly the lock holders. */
  ghost predicate Sound(calls: map<string, seq<Call>>, cache: map<string, Entry>, holders: map<string, nat>,
                        requests: map<nat, Phase>, now: int, ttl: nat)
  {
    && (forall s: string :: SessionSound(Lookup(calls, s).GetOr([]), Lookup(holders, s), Lookup(cache, s), now, ttl))
    && (forall r: nat, s: string :: r in requests && requests[r] == Verifying(s) <==> s in holders && holders[s] == r)
  }

  lemma AcquireSound(calls: map<string, seq<Call>>, cache: map<string, Entry>, holders: map<string, nat>,
                     requests: map<nat, Phase>, now: int, ttl: nat, r: nat, s: string)
    requires Sound(calls, cache, holders, requests, now, ttl)
    requires r in requests && requests[r] == AtLock(s) && s !in holders && !Hits(Lookup(cache, s), now)
    ensures Sound(calls[s := Lookup(calls, s).GetOr([]) + [Call(r, now, None)]], cache, holders[s := r],
                  requests[r := Verifying(s)], now, ttl)
  {
    var history := Lookup(calls, s).GetOr([]);
    StartCall(history, Lookup(cache, s), now, ttl, r);
    var calls', holders' := calls[s := history + [Call(r, now, None)]], holders[s := r];
    forall t: string ensures SessionSound(Lookup(calls', t).GetOr([]), Lookup(holders', t), Lookup(cache, t), now, ttl) {
      if t != s { assert Lookup(calls', t) == Lookup(calls, t) && Lookup(holders', t) == Lookup(holders, t); }
    }
  }

  lemma CompleteSound(calls: map<string, seq<Call>>, cache: map<string, Entry>, holders: map<string, nat>,
                      requests: map<nat, Phase>, now: int, ttl: nat, r: nat, s: string, verdict: Option<Verdict>,
                      cache': map<string, Entry>, phase: Phase)
    requires Sound(calls, cache, holders, requests, now, ttl) && !phase.Verifying?
    requires r in requests && requests[r] == Verifying(s)
    requires cache' == if verdict.Some? && verdict.value.Verified?
                       then cache[s := Entry(verdict.value.user, verdict.value.isAdmin, now + ttl)] else cache
    ensures s in calls && calls[s] != [] && calls[s][|calls[s]| - 1].request == r && calls[s][|calls[s]| - 1].end.None?
    ensures Sound(calls[s := EndLast(calls[s], now, verdict)], cache', holders - {s}, requests[r := phase], now, ttl)
  {
    var history := Lookup(calls, s).GetOr([]);
    EndCall(history, r, Lookup(cache, s), now, ttl, verdict);
    assert history == calls[s];
    var calls', holders' := calls[s := EndLast(history, now, verdict)], holders - {s};
    forall t: string ensures SessionSound(Lookup(calls', t).GetOr([]), Lookup(holders', t), Lookup(cache', t), now, ttl) {
      if t != s {
        assert Lookup(calls', t) == Lookup(calls, t) && Lookup(holders', t) == Lookup(holders, t);
        assert Lookup(cache', t) == Lookup(cache, t);
      } else {
        assert Lookup(cache', s) == EntryAfter(Lookup(cache, s), verdict, now + ttl);
        assert Lookup(calls', s) == Some(EndLast(history, now, verdict)) && Lookup(holders', s) == None;
      }
    }
  }

  function HistoryOf(calls: map<string, seq<Call>>, s: string): seq<Call> {
    Lookup(calls, s).GetOr([])
  }

  /** What an answer rests on: how the request's own call ended, or the cache entry that it
      found at a time. */
  datatype Ground = ByCall(verdict: Option<Verdict>) | ByEntry(entry: Entry, at: int)

  /** The call or the entry named this user, or named none. */
  ghost predicate Names(ground: Ground, user: Option<string>, isAdmin: bool) {
    || ground == ByCall(Some(Verified(user, isAdmin)))
    || (ground.ByEntry? && ground.entry.user == user && ground.entry.isAdmin == isAdmin)
  }

  /** A request passes as a user exactly if that user was named and is on the white list; it is
      refused exactly if a verified session named nobody or somebody else; the session is
      invalid, or the service unavailable, exactly if its call said so; and it is aborted
      exactly if its call ended without an answer. */
  ghost predicate Deserved(phase: Phase, ground: Ground, allowed: set<string>) {
    && (phase.Aborted? <==> ground == ByCall(None)) && (phase.Answered? <==> ground != ByCall(None))
    && (phase.Answered? ==>
          && (forall user, isAdmin :: phase.response == Passed(user, isAdmin) <==>
                                      user in allowed && Names(ground, Some(user), isAdmin))
          && (phase.response == Forbidden <==>
                exists user, isAdmin :: Names(ground, user, isAdmin) && (user.None? || user.value !in allowed))
          && (phase.response == Unauthorized <==> ground == ByCall(Some(Invalid)))
          && (phase.response == ServiceUnavailable <==> ground == ByCall(Some(Unavailable))))
  }

  /** Call `i` of the session ended with a verified answer and was cached as `entry`. */
  ghost predicate Cached(calls: seq<Call>, i: int, entry: Entry, ttl: nat) {
    && 0 <= i < |calls| && calls[i].end.Some?
    && calls[i].end.value.verdict == Some(Verified(entry.user, entry.isAdmin)) && entry.expires == calls[i].end.value.time + ttl
  }

  ghost predicate FromCall(calls: seq<Call>, entry: Entry, ttl: nat) {
    exists i :: Cached(calls, i, entry, ttl)
  }

  ghost predicate EndedWith(calls: seq<Call>, i: int, r: nat, verdict: Option<Verdict>) {
    0 <= i < |calls| && calls[i].request == r && calls[i].end.Some? && calls[i].end.value.verdict == verdict
  }

  /** The ground is in the history of the session: the request's own call ended so, or the
      entry came from a call, and had not expired when it was found. */
  ghost predicate Recorded(calls: seq<Call>, r: nat, ground: Ground, ttl: nat) {
    match ground
    case ByCall(verdict) => exists i :: EndedWith(calls, i, r, verdict)
    case ByEntry(entry, at) => FromCall(calls, entry, ttl) && at < entry.expires && entry.user.Some?
  }

  predicate IsOver(phase: Phase) {
    phase.Answered? || phase.Aborted?
  }

  /** Every request that is over has its ground, and got what it deserves. */
  ghost predicate Settled(calls: map<string, seq<Call>>, requests: map<nat, Phase>, grounds: map<nat, Ground>,
                          allowed: set<string>, ttl: nat, r: nat)
  {
    r in requests && IsOver(requests[r]) ==>
      && r in grounds && Deserved(requests[r], grounds[r], allowed)
      && Recorded(HistoryOf(calls, requests[r].session), r, grounds[r], ttl)
  }

  /** What is cached came from a call, and every request that is over is settled. */
  ghost predicate Trusted(calls: map<string, seq<Call>>, cache: map<string, Entry>, requests: map<nat, Phase>,
                          grounds: map<nat, Ground>, allowed: set<string>, ttl: nat)
  {
    && (forall s :: s in cache ==> FromCall(HistoryOf(calls, s), cache[s], ttl))
    && forall r :: Settled(calls, requests, grounds, allowed, ttl, r)
  }

  /** Ended calls stay as they ended. */
  ghost predicate Grows(before: seq<Call>, after: seq<Call>) {
    |before| <= |after| && forall i :: 0 <= i < |before| && before[i].end.Some? ==> after[i] == before[i]
  }

  lemma CachedStill(before: seq<Call>, after: seq<Call>, entry: Entry, ttl: nat)
    requires Grows(before, after) && FromCall(before, entry, ttl)
    ensures FromCall(after, entry, ttl)
  {
    var i :| Cached(before, i, entry, ttl);
    assert Cached(after, i, entry, ttl);
  }

  lemma RecordedStill(before: seq<Call>, after: seq<Call>, r: nat, ground: Ground, ttl: nat)
    requires Grows(before, after) && Recorded(before, r, ground, ttl)
    ensures Recorded(after, r, ground, ttl)
  {
    match ground {
      case ByCall(verdict) =>
        var i :| EndedWith(before, i, r, verdict);
        assert EndedWith(after, i, r, verdict);
      case ByEntry(entry, at) => CachedStill(before, after, entry, ttl);
    }
  }

  lemma TrustedGrows(calls: map<string, seq<Call>>, s: string, history: seq<Call>, cache: map<string, Entry>,
                     requests: map<nat, Phase>, grounds: map<nat, Ground>, allowed: set<string>, ttl: nat)
    requires Trusted(calls, cache, requests, grounds, allowed, ttl) && Grows(HistoryOf(calls, s), history)
    ensures Trusted(calls[s := history], cache, requests, grounds, allowed, ttl)
  {
    var after := calls[s := history];
    forall t | t in cache ensures FromCall(HistoryOf(after, t), cache[t], ttl) {
      assert FromCall(HistoryOf(calls, t), cache[t], ttl);
      if t == s { CachedStill(HistoryOf(calls, s), history, cache[t], ttl); }
    }
    forall r ensures Settled(after, requests, grounds, allowed, ttl, r) {
      assert Settled(calls, requests, grounds, allowed, ttl, r);
      if r in requests && IsOver(requests[r]) && requests[r].session == s {
        RecordedStill(HistoryOf(calls, s), history, r, grounds[r], ttl);
      }
    }
  }

  /** One request changes its phase; if that is the end, with a ground. */
  lemma TrustedPhase(calls: map<string, seq<Call>>, cache: map<string, Entry>, requests: map<nat, Phase>, grounds: map<nat, Ground>,
                     allowed: set<string>, ttl: nat, r: nat, phase: Phase, ground: Ground)
    requires Trusted(calls, cache, requests, grounds, allowed, ttl)
    requires IsOver(phase) ==> Deserved(phase, ground, allowed) && Recorded(HistoryOf(calls, phase.session), r, ground, ttl)
    ensures Trusted(calls, cache, requests[r := phase], grounds[r := ground], allowed, ttl)
    ensures !IsOver(phase) ==> Trusted(calls, cache, requests[r := phase], grounds, allowed, ttl)
  {
    var after, more := requests[r := phase], grounds[r := ground];
    forall q ensures Settled(calls, after, more, allowed, ttl, q) {
      assert Settled(calls, requests, grounds, allowed, ttl, q);
    }
    if !IsOver(phase) {
      forall q ensures Settled(calls, after, grounds, allowed, ttl, q) {
        assert Settled(calls, requests, grounds, allowed, ttl, q);
      }
    }
  }

  lemma EndRecorded(calls: seq<Call>, now: int, verdict: Option<Verdict>, ttl: nat)
    requires calls != []
    ensures Recorded(EndLast(calls, now, verdict), calls[|calls| - 1].request, ByCall(verdict), ttl)
    ensures verdict.Some? && verdict.value.Verified? ==>
              FromCall(EndLast(calls, now, verdict), Entry(verdict.value.user, verdict.value.isAdmin, now + ttl), ttl)
  {
    var after, n := EndLast(calls, now, verdict), |calls| - 1;
    assert EndedWith(after, n, calls[n].request, verdict);
    if verdict.Some? && verdict.value.Verified? {
      assert Cached(after, n, Entry(verdict.value.user, verdict.value.isAdmin, now + ttl), ttl);
    }
  }

  lemma CompleteTrusted(calls: map<string, seq<Call>>, cache: map<string, Entry>, requests: map<nat, Phase>, grounds: map<nat, Ground>,
                        allowed: set<string>, now: int, ttl: nat, r: nat, s: string, verdict: Option<Verdict>,
                        cache': map<string, Entry>, phase: Phase)
    requires Trusted(calls, cache, requests, grounds, allowed, ttl)
    requires s in calls && calls[s] != [] && calls[s][|calls[s]| - 1].end.None? && calls[s][|calls[s]| - 1].request == r
    requires cache' == if verdict.Some? && verdict.value.Verified?
                       then cache[s := Entry(verdict.value.user, verdict.value.isAdmin, now + ttl)] else cache
    requires IsOver(phase) && phase.session == s && Deserved(phase, ByCall(verdict), allowed)
    ensures Trusted(calls[s := EndLast(calls[s], now, verdict)], cache', requests[r := phase], grounds[r := ByCall(verdict)], allowed, ttl)
  {
    var history := EndLast(calls[s], now, verdict);
    var after := calls[s := history];
    TrustedGrows(calls, s, history, cache, requests, grounds, allowed, ttl);
    EndRecorded(calls[s], now, verdict, ttl);
    TrustedPhase(after, cache, requests, grounds, allowed, ttl, r, phase, ByCall(verdict));
  }

  lemma CompleteValid(calls: map<string, seq<Call>>, cache: map<string, Entry>, holders: map<string, nat>, requests: map<nat, Phase>,
                      grounds: map<nat, Ground>, allowed: set<string>, now: int, ttl: nat, r: nat, s: string,
                      verdict: Option<Verdict>, cache': map<string, Entry>, phase: Phase)
    requires Sound(calls, cache, holders, requests, now, ttl) && Trusted(calls, cache, requests, grounds, allowed, ttl)
    requires r in requests && requests[r] == Verifying(s)
    requires cache' == if verdict.Some? && verdict.value.Verified?
                       then cache[s := Entry(verdict.value.user, verdict.value.isAdmin, now + ttl)] else cache
    requires IsOver(phase) && phase.session == s && Deserved(phase, ByCall(verdict), allowed)
    ensures s in calls && calls[s] != [] && calls[s][|calls[s]| - 1].request == r
    ensures Sound(calls[s := EndLast(calls[s], now, verdict)], cache', holders - {s}, requests[r := phase], now, ttl)
    ensures Trusted(calls[s := EndLast(calls[s], now, verdict)], cache', requests[r := phase], grounds[r := ByCall(verdict)], allowed, ttl)
  {
    CompleteSound(calls, cache, holders, requests, now, ttl, r, s, verdict, cache', phase);
    CompleteTrusted(calls, cache, requests, grounds, allowed, now, ttl, r, s, verdict, cache', phase);
  }

  /** Where a look at the cache leads: an entry that has not expired and names a user answers,
      by the white list; otherwise the request goes on. */
  ghost predicate Looked(cache: map<string, Entry>, now: int, allowed: set<string>, session: string, otherwise: Phase, phase: Phase) {
    if session in cache && now < cache[session].expires && cache[session].user.Some?
    then var user := cache[session].user.value;
         && (user in allowed ==> phase == Answered(session, Passed(user, cache[session].isAdmin)))
         && (user !in allowed ==> phase == Answered(session, Forbidden))
    else phase == otherwise
  }

  /** What can happen next: time passes, a request arrives, gets the lock, or is answered. */
  datatype Step = Time(delta: nat) | Arrives(r: nat, session: string) | Acquires(r: nat)
                | Completes(r: nat, verdict: Option<Verdict>)

  class Middleware {
    const allowed: set<string>
    const ttl: nat
    var now: int
    var cache: map<string, Entry>
    /** Which request holds the lock of a session; a session without an entry is unlocked. */
    var holders: map<string, nat>
    var requests: map<nat, Phase>
    ghost var calls: map<string, seq<Call>>
    /** What the answers rest on. */
    ghost var grounds: map<nat, Ground>

    ghost predicate Valid()
      reads this
    {
      Sound(calls, cache, holders, requests, now, ttl) && Trusted(calls, cache, requests, grounds, allowed, ttl)
    }

    constructor (allowed: set<string>, ttl: nat, now: int)
      ensures Valid() && calls == map[] && cache == map[] && requests == map[]
      ensures this.allowed == allowed && this.ttl == ttl && this.now == now
    {
      this.allowed, this.ttl, this.now := allowed, ttl, now;
      cache, holders, requests, calls, grounds := map[], map[], map[], map[], map[];
    }

    /** The white-list check that ends every verified request. */
    function Authorize(user: Option<string>, isAdmin: bool): Response {
      if user.Some? && user.value in allowed then Passed(user.value, isAdmin) else Forbidden
    }

    method Tick(time: int)
      requires Valid() && time >= now
      modifies this`now
      ensures Valid() && now == time
    {
      now := time;
    }

    /** Where a request goes after a look at the cache. */
    function AfterCache(session: string, otherwise: Phase): Phase
      reads this
    {
      var entry := Lookup(cache, session);
      if Hits(entry, now) then Answered(session, Authorize(entry.value.user, entry.value.isAdmin)) else otherwise
    }

    /** A request with a session cookie arrives: an unexpired entry of the session answers it
        at once, otherwise it goes to the session's own lock. */
    method Arrive(r: nat, session: string)
      requires Valid() && r !in requests
      modifies this`requests, this`grounds
      ensures Valid()
      ensures r in requests && requests == old(requests)[r := requests[r]]
      ensures Looked(cache, now, allowed, session, AtLock(session), requests[r])
      ensures if requests[r].Answered? then grounds == old(grounds)[r := ByEntry(cache[session], now)] else grounds == old(grounds)
    {
      var phase := AfterCache(session, AtLock(session));
      ghost var ground := ByEntry(Lookup(cache, session).GetOr(Entry(None, false, 0)), now);
      HitDeserved(session, phase);
      TrustedPhase(calls, cache, requests, grounds, allowed, ttl, r, phase, ground);
      requests := requests[r := phase];
      if IsOver(phase) { grounds := grounds[r := ground]; }
    }

    /** A hit is answered as it deserves. */
    lemma HitDeserved(session: string, otherwise: Phase)
      requires Valid()
      ensures Hits(Lookup(cache, session), now) ==>
                var entry := cache[session];
                && Deserved(AfterCache(session, otherwise), ByEntry(entry, now), allowed)
                && Recorded(HistoryOf(calls, session), 0, ByEntry(entry, now), ttl)
    {
      if Hits(Lookup(cache, session), now) {
        assert FromCall(HistoryOf(calls, session), cache[session], ttl);
        assert Names(ByEntry(cache[session], now), cache[session].user, cache[session].isAdmin);
      }
    }

    /** The lock of the request's own session is free: take it and look at the cache again.
        A hit answers and releases; a miss starts the remote call. */
    method Acquire(r: nat)
      requires Valid() && r in requests && requests[r].AtLock? && requests[r].session !in holders
      modifies this`requests, this`holders, this`calls, this`grounds
      ensures Valid()
      ensures r in requests && requests == old(requests)[r := requests[r]]
      ensures Looked(cache, now, allowed, old(requests[r].session), Verifying(old(requests[r].session)), requests[r])
      ensures var s := old(requests[r].session);
              if requests[r].Answered?
              then holders == old(holders) && calls == old(calls) && grounds == old(grounds)[r := ByEntry(cache[s], now)]
              else && holders == old(holders)[s := r] && grounds == old(grounds)
                   && calls == old(calls)[s := Lookup(old(calls), s).GetOr([]) + [Call(r, now, None)]]
    {
      var s := requests[r].session;
      var phase := AfterCache(s, Verifying(s));
      ghost var ground := ByEntry(Lookup(cache, s).GetOr(Entry(None, false, 0)), now);
      HitDeserved(s, Verifying(s));
      TrustedPhase(calls, cache, requests, grounds, allowed, ttl, r, phase, ground);
      if Hits(Lookup(cache, s), now) {
        grounds := grounds[r := ground];
      } else {
        ghost var history := Lookup(calls, s).GetOr([]) + [Call(r, now, None)];
        AcquireSound(calls, cache, holders, requests, now, ttl, r, s);
        TrustedGrows(calls, s, history, cache, requests[r := phase], grounds, allowed, ttl);
        holders, calls := holders[s := r], calls[s := history];
      }
      requests := requests[r := phase];
    }

    /** How a request ends when its remote call does. */
    function Settle(session: string, verdict: Option<Verdict>): Phase {
      match verdict
      case None => Aborted(session)
      case Some(Unavailable) => Answered(session, ServiceUnavailable)
      case Some(Invalid) => Answered(session, Unauthorized)
      case Some(Verified(user, isAdmin)) => Answered(session, Authorize(user, isAdmin))
    }

    lemma SettleDeserved(session: string, verdict: Option<Verdict>)
      ensures IsOver(Settle(session, verdict)) && Settle(session, verdict).session == session
      ensures Deserved(Settle(session, verdict), ByCall(verdict), allowed)
    {
      if verdict.Some? && verdict.value.Verified? {
        assert Names(ByCall(verdict), verdict.value.user, verdict.value.isAdmin);
      }
    }

    /** The remote call of `r` ends (no verdict: the request was cancelled, or the answer
        could not be read). A verified answer is cached; the lock is released. Other
        sessions keep their lock, their entry and their history. */
    method Complete(r: nat, verdict: Option<Verdict>)
      requires Valid() && r in requests && requests[r].Verifying?
      modifies this`requests, this`holders, this`calls, this`cache, this`grounds
      ensures Valid()
      ensures r in requests && requests == old(requests)[r := requests[r]] && IsOver(requests[r])
      ensures requests[r].session == old(requests[r].session) && Deserved(requests[r], ByCall(verdict), allowed)
      ensures grounds == old(grounds)[r := ByCall(verdict)]
      ensures var s := old(requests[r].session);
              && holders == old(holders) - {s}
              && cache == (if verdict.Some? && verdict.value.Verified?
                           then old(cache)[s := Entry(verdict.value.user, verdict.value.isAdmin, now + ttl)] else old(cache))
              && s in old(calls) && old(calls)[s] != [] && old(calls)[s][|old(calls)[s]| - 1].request == r
              && calls == old(calls)[s := EndLast(old(calls)[s], now, verdict)]
    {
      var s := requests[r].session;
      var phase := Settle(s, verdict);
      var cached := if verdict.Some? && verdict.value.Verified?
                    then cache[s := Entry(verdict.value.user, verdict.value.isAdmin, now + ttl)] else cache;
      SettleDeserved(s, verdict);
      CompleteValid(calls, cache, holders, requests, grounds, allowed, now, ttl, r, s, verdict, cached, phase);
      cache, holders, requests, calls, grounds :=
        cached, holders - {s}, requests[r := phase], calls[s := EndLast(calls[s], now, verdict)], grounds[r := ByCall(verdict)];
    }

    /** Any interleaving of any requests, steps that are not enabled being skipped: whatever
        the schedule, the calls made for one session never overlap, and after one that named
        a user none starts before its cache entry has expired; and every request that is over
        got what its own call, or the unexpired entry it found, deserves: it passed exactly as
        a user on the white list that was named there. */
    method Interleave(steps: seq<Step>)
      requires Valid()
      modifies this
      ensures Valid()
      ensures forall s :: s in calls ==> NoOverlap(calls[s], ttl)
      ensures forall r :: r in requests && IsOver(requests[r]) ==>
                && r in grounds && Deserved(requests[r], grounds[r], allowed)
                && Recorded(HistoryOf(calls, requests[r].session), r, grounds[r], ttl)
    {
      for k := 0 to |steps|
        invariant Valid()
      {
        match steps[k]
        case Time(delta) => Tick(now + delta);
        case Arrives(r, session) => if r !in requests { Arrive(r, session); }
        case Acquires(r) =>
          if r in requests && requests[r].AtLock? && requests[r].session !in holders { Acquire(r); }
        case Completes(r, verdict) => if r in requests && requests[r].Verifying? { Complete(r, verdict); }
      }
      forall s | s in calls ensures NoOverlap(calls[s], ttl) {
        assert SessionSound(Lookup(calls, s).GetOr([]), Lookup(holders, s), Lookup(cache, s), now, ttl);
        SerialNoOverlap(calls[s], ttl);
      }
      forall r | r in requests && IsOver(requests[r])
        ensures r in grounds && Deserved(requests[r], grounds[r], allowed)
                && Recorded(HistoryOf(calls, requests[r].session), r, grounds[r], ttl)
      {
        assert Settled(calls, requests, grounds, allowed, ttl, r);
      }
    }
  }
}
