/**
 The groups protocol: `updateGroupInfo` polls the content service and offers its current error flag,
 error and groups on three unbuffered channels; `getGroupsConfig` receives the flag without blocking
 and then, blocking, either the error or the groups. Theorems are about every run.
 */
module Groups {
  import opened Sequences

  datatype Group = Group(title: string, description: string, tags: seq<string>)
  type Reader = nat

  /** nil or a list, as a Go slice. */
  type GroupList = Option<seq<Group>>

  /** What `services.GetGroups` returned. */
  datatype FetchError = UrlError(message: string) | OtherError(message: string)
  datatype Fetch = Fetched(groups: GroupList) | Failed(error: FetchError)

  /** The errors handed to a request. */
  datatype StoredError = ContentServiceUnavailable | Passed(error: FetchError)

  function Translate(error: FetchError): StoredError
  {
    if error.UrlError? then ContentServiceUnavailable else Passed(error)
  }

  datatype Current = Current(groups: GroupList, errorFound: bool, error: Option<StoredError>)

  /** `handleGroupError`. */
  function HandleGroupError(fetch: Fetch, current: Current): Current
  {
    match fetch
    case Failed(e) => Current(current.groups, true, Some(Translate(e)))
    case Fetched(gs) => Current(gs, false, None)
  }

  /** A request between its two receives, or finished. `at` counts the fetches completed when the
      flag was received; `until` when the second receive happened. */
  datatype Phase =
    | WaitError(at: nat)
    | WaitGroups(at: nat)
    | NoFlag
    | GotError(at: nat, until: nat, error: Option<StoredError>)
    | GotGroups(at: nat, until: nat, groups: GroupList)

  /** `selecting` is true while the updater waits in its select statement. */
  datatype State = State(current: Current, selecting: bool, readers: map<Reader, Phase>, fetches: seq<Fetch>)

  datatype Event =
    | Tick
    | FetchDone(fetch: Fetch)
    | ReceiveFlag(reader: Reader)
    | MissFlag(reader: Reader)
    | ReceiveError(reader: Reader)
    | ReceiveGroups(reader: Reader)

  /** The updater's first act is a fetch, with every variable at its zero value. */
  function Initial(): State
  {
    State(Current(None, false, None), false, map[], [])
  }

  predicate Waiting(s: State, r: Reader)
  {
    r in s.readers && (s.readers[r].WaitError? || s.readers[r].WaitGroups?)
  }

  predicate Enabled(s: State, e: Event)
  {
    match e
    case Tick => s.selecting
    case FetchDone(_) => !s.selecting
    case ReceiveFlag(r) => s.selecting && !Waiting(s, r)
    // A non-blocking receive may miss a sender that is just entering its select.
    case MissFlag(r) => !Waiting(s, r)
    case ReceiveError(r) => s.selecting && r in s.readers && s.readers[r].WaitError?
    case ReceiveGroups(r) => s.selecting && r in s.readers && s.readers[r].WaitGroups?
  }

  function Apply(s: State, e: Event): State
  {
    if !Enabled(s, e) then s else
    match e
    case Tick => s.(selecting := false)
    case FetchDone(f) =>
      s.(selecting := true, current := HandleGroupError(f, s.current), fetches := s.fetches + [f])
    case ReceiveFlag(r) =>
      var n := |s.fetches|;
      s.(readers := s.readers[r := if s.current.errorFound then WaitError(n) else WaitGroups(n)])
    case MissFlag(r) => s.(readers := s.readers[r := NoFlag])
    case ReceiveError(r) =>
      s.(readers := s.readers[r := GotError(s.readers[r].at, |s.fetches|, s.current.error)])
    case ReceiveGroups(r) =>
      s.(readers := s.readers[r := GotGroups(s.readers[r].at, |s.fetches|, s.current.groups)])
  }

  function Final(s: State, es: seq<Event>): State
  {
    if es == [] then s else Apply(Final(s, es[..|es| - 1]), es[|es| - 1])
  }

  // ---------- what the updater holds ----------

  /** The groups of the last fetch that succeeded; nil if none did. */
  function LastSuccess(fetches: seq<Fetch>): GroupList
  {
    if fetches == [] then None
    else if fetches[|fetches| - 1].Fetched? then fetches[|fetches| - 1].groups
    else LastSuccess(fetches[..|fetches| - 1])
  }

  predicate LastFailed(fetches: seq<Fetch>)
  {
    fetches != [] && fetches[|fetches| - 1].Failed?
  }

  predicate Reflects(c: Current, fetches: seq<Fetch>)
  {
    && c.groups == LastSuccess(fetches)
    && c.errorFound == LastFailed(fetches)
    && c.error == if LastFailed(fetches) then Some(Translate(fetches[|fetches| - 1].error)) else None
  }

  /** What a reader's phase says about the fetches made so far. */
  predicate PhaseJustified(p: Phase, fetches: seq<Fetch>)
  {
    match p
    case WaitError(at) => at <= |fetches| && LastFailed(fetches[..at])
    case WaitGroups(at) => at <= |fetches| && !LastFailed(fetches[..at]) && at > 0
    case NoFlag => true
    case GotError(at, until, error) =>
      && at <= until <= |fetches| && LastFailed(fetches[..at])
      && error == if LastFailed(fetches[..until]) then Some(Translate(fetches[until - 1].error)) else None
    case GotGroups(at, until, groups) =>
      0 < at <= until <= |fetches| && !LastFailed(fetches[..at]) && groups == LastSuccess(fetches[..until])
  }

  ghost predicate Inv(s: State)
  {
    && Reflects(s.current, s.fetches)
    && (s.selecting ==> s.fetches != [])
    && (forall r :: r in s.readers ==> PhaseJustified(s.readers[r], s.fetches))
  }

  lemma PhaseKept(p: Phase, fetches: seq<Fetch>, f: Fetch)
    requires PhaseJustified(p, fetches)
    ensures PhaseJustified(p, fetches + [f])
  {
    assert forall n :: 0 <= n <= |fetches| ==> (fetches + [f])[..n] == fetches[..n];
  }

  lemma InvStep(s: State, e: Event)
    requires Inv(s)
    ensures Inv(Apply(s, e))
  {
    var s' := Apply(s, e);
    assert s.fetches[..|s.fetches|] == s.fetches;
    if Enabled(s, e) && e.FetchDone? {
      assert s'.fetches[..|s.fetches|] == s.fetches;
      forall r | r in s'.readers ensures PhaseJustified(s'.readers[r], s'.fetches) {
        PhaseKept(s.readers[r], s.fetches, e.fetch);
      }
    }
  }

  lemma {:induction false} InvRun(es: seq<Event>)
    ensures Inv(Final(Initial(), es))
  {
    if es != [] {
      InvRun(es[..|es| - 1]);
      InvStep(Final(Initial(), es[..|es| - 1]), es[|es| - 1]);
    }
  }

  /** In every run the error flag is raised exactly while an error is stored, and the stored groups
      are those of the last successful fetch. */
  lemma UpdaterHoldsLastSuccess(es: seq<Event>)
    ensures var s := Final(Initial(), es);
            && (s.current.errorFound <==> s.current.error.Some?)
            && (s.current.errorFound <==> LastFailed(s.fetches))
            && s.current.groups == LastSuccess(s.fetches)
  {
    InvRun(es);
  }

  // ---------- what a request gets ----------

  /** The index of the fetch whose groups are current after `n` fetches, when one succeeded. */
  lemma {:induction false} LastSuccessIsRecent(fetches: seq<Fetch>, at: nat)
    requires 0 < at <= |fetches| && fetches[at - 1].Fetched?
    ensures exists k :: at - 1 <= k < |fetches| && fetches[k].Fetched? && fetches[k].groups == LastSuccess(fetches)
                        && forall j :: k < j < |fetches| ==> fetches[j].Failed?
  {
    var n := |fetches| - 1;
    if fetches[n].Failed? {
      LastSuccessIsRecent(fetches[..n], at);
      var k :| at - 1 <= k < n && fetches[..n][k].Fetched? && fetches[..n][k].groups == LastSuccess(fetches[..n])
               && forall j :: k < j < n ==> fetches[..n][j].Failed?;
      assert fetches[k].Fetched? && forall j :: k < j < |fetches| ==> fetches[j].Failed?;
    }
  }

  /** A request that saw `false` receives the groups of a successful fetch at least as recent as the
      one that was current when it saw the flag. */
  lemma GroupsAreFresh(es: seq<Event>, r: Reader)
    requires r in Final(Initial(), es).readers && Final(Initial(), es).readers[r].GotGroups?
    ensures var s := Final(Initial(), es); var p := s.readers[r];
            exists k :: 0 <= p.at - 1 <= k < p.until <= |s.fetches|
                        && s.fetches[k].Fetched? && s.fetches[k].groups == p.groups
  {
    InvRun(es);
    var s := Final(Initial(), es);
    var p := s.readers[r];
    var seen := s.fetches[..p.until];
    assert seen[..p.at] == s.fetches[..p.at];
    LastSuccessIsRecent(seen, p.at);
    var k :| p.at - 1 <= k < |seen| && seen[k].Fetched? && seen[k].groups == LastSuccess(seen);
    assert s.fetches[k] == seen[k];
  }

  lemma LastFailedPrefix(fetches: seq<Fetch>, n: nat)
    requires n <= |fetches|
    ensures LastFailed(fetches[..n]) <==> n > 0 && fetches[n - 1].Failed?
  {
  }

  /** A request that saw `true` receives no error iff the last fetch before its second receive
      succeeded, which then happened after it saw the flag. */
  lemma ErrorVanishesOnlyAfterSuccess(es: seq<Event>, r: Reader)
    requires r in Final(Initial(), es).readers && Final(Initial(), es).readers[r].GotError?
    ensures var s := Final(Initial(), es); var p := s.readers[r];
            && 0 < p.at <= p.until <= |s.fetches|
            && (p.error.None? <==> s.fetches[p.until - 1].Fetched?)
            && (p.error.None? ==> p.at < p.until)
            && (p.error.Some? ==> p.error.value == match s.fetches[p.until - 1].error
                                                   case UrlError(_) => ContentServiceUnavailable
                                                   case OtherError(m) => Passed(OtherError(m)))
  {
    InvRun(es);
    var s := Final(Initial(), es);
    LastFailedPrefix(s.fetches, s.readers[r].at);
    LastFailedPrefix(s.fetches, s.readers[r].until);
  }

  function SecondReceive(s: State, r: Reader): Event
    requires Waiting(s, r)
  {
    if s.readers[r].WaitError? then ReceiveError(r) else ReceiveGroups(r)
  }

  /** Every event of the list happens. */
  predicate IsRun(s: State, es: seq<Event>)
  {
    es == [] || (IsRun(s, es[..|es| - 1]) && Enabled(Final(s, es[..|es| - 1]), es[|es| - 1]))
  }

  function WaitingReaders(s: State): set<Reader>
  {
    set r | r in s.readers && Waiting(s, r)
  }

  /** The updater's select statement, after the pending fetch if there is one. */
  function Selecting(s: State, f: Fetch): seq<Event>
  {
    if s.selecting then [] else [FetchDone(f)]
  }

  /** The second receives of the listed requests, in order. */
  function Receives(s: State, order: seq<Reader>): (es: seq<Event>)
    requires forall r :: r in order ==> Waiting(s, r)
    ensures |es| == |order|
  {
    if order == [] then [] else
      var n := |order| - 1;
      assert order[n] in order;
      Receives(s, order[..n]) + [SecondReceive(s, order[n])]
  }

  /** A phase that ended with the updater's state `c` after `n` fetches. */
  predicate ServedAt(was: Phase, now: Phase, c: Current, n: nat)
  {
    match was
    case WaitError(at) => now == GotError(at, n, c.error)
    case WaitGroups(at) => now == GotGroups(at, n, c.groups)
    case _ => now == was
  }

  /** From `s` to `now` exactly the requests in `done` were served, by one and the same updater state. */
  ghost predicate Served(s: State, now: State, done: seq<Reader>)
  {
    && now.selecting && now.current == s.current && now.fetches == s.fetches
    && now.readers.Keys == s.readers.Keys
    && forall q :: q in s.readers ==>
         if q in done then ServedAt(s.readers[q], now.readers[q], s.current, |s.fetches|)
         else now.readers[q] == s.readers[q]
  }

  lemma ServeOne(s: State, now: State, done: seq<Reader>, r: Reader)
    requires Served(s, now, done) && r !in done && Waiting(s, r)
    ensures Enabled(now, SecondReceive(s, r)) && Served(s, Apply(now, SecondReceive(s, r)), done + [r])
  {
  }

  lemma ReceivesSnoc(s: State, order: seq<Reader>, r: Reader)
    requires Waiting(s, r) && forall q :: q in order ==> Waiting(s, q)
    ensures forall q :: q in order + [r] ==> Waiting(s, q)
    ensures Receives(s, order + [r]) == Receives(s, order) + [SecondReceive(s, r)]
  {
    assert (order + [r])[..|order|] == order;
  }

  lemma RunSnoc(s: State, es: seq<Event>, e: Event)
    requires IsRun(s, es) && Enabled(Final(s, es), e)
    ensures IsRun(s, es + [e]) && Final(s, es + [e]) == Apply(Final(s, es), e)
  {
    assert (es + [e])[..|es|] == es;
  }

  /** While the updater selects, any waiting requests can be served one after another, in any order;
      nobody else is touched. */
  lemma {:induction false} ServeInOrder(s: State, order: seq<Reader>)
    requires s.selecting && Distinct(order) && forall r :: r in order ==> Waiting(s, r)
    ensures IsRun(s, Receives(s, order)) && Served(s, Final(s, Receives(s, order)), order)
  {
    if order != [] {
      var init, last := order[..|order| - 1], order[|order| - 1];
      assert order == init + [last] && last !in init && Waiting(s, last);
      ServeInOrder(s, init);
      var es, now := Receives(s, init), Final(s, Receives(s, init));
      ServeOne(s, now, init, last);
      ReceivesSnoc(s, init, last);
      RunSnoc(s, es, SecondReceive(s, last));
      assert Receives(s, order) == es + [SecondReceive(s, last)];
    }
  }

  lemma {:induction false} RunAfter(s: State, e: Event, es: seq<Event>)
    requires Enabled(s, e) && IsRun(Apply(s, e), es)
    ensures IsRun(s, [e] + es) && Final(s, [e] + es) == Final(Apply(s, e), es)
  {
    var all := [e] + es;
    if es == [] {
      assert all == [e] && [e][..0] == [];
    } else {
      assert all[..|all| - 1] == [e] + es[..|es| - 1] && all[|all| - 1] == es[|es| - 1];
      RunAfter(s, e, es[..|es| - 1]);
    }
  }

  lemma {:induction false} ReceivesKept(s: State, s': State, order: seq<Reader>)
    requires s'.readers == s.readers && forall r :: r in order ==> Waiting(s, r)
    ensures forall r :: r in order ==> Waiting(s', r)
    ensures Receives(s', order) == Receives(s, order)
  {
    forall r | r in order ensures Waiting(s', r) {
      assert Waiting(s, r);
    }
    if order != [] {
      ReceivesKept(s, s', order[..|order| - 1]);
    }
  }

  lemma AllServed(s: State, now: State)
    requires now.selecting && now.readers.Keys == s.readers.Keys
    requires forall r :: r in s.readers ==> ServedAt(s.readers[r], now.readers[r], now.current, |now.fetches|)
    ensures WaitingReaders(now) == {} && forall r :: Enabled(now, ReceiveFlag(r))
  {
    forall r ensures !Waiting(now, r) {
      if r in s.readers {
        assert ServedAt(s.readers[r], now.readers[r], now.current, |now.fetches|);
      }
    }
  }

  /** No request is ever stuck between its two receives: from any state, in whatever order the waiting
      requests come, at most the pending fetch (whatever it returns) and then one receive per request
      serve them all, each with what the updater holds at that point; then any request can start. */
  lemma NobodyIsStuck(s: State, order: seq<Reader>, f: Fetch)
    requires Enumerates(order, WaitingReaders(s))
    ensures forall r :: r in order ==> Waiting(s, r)
    ensures var es := Selecting(s, f) + Receives(s, order);
            && |es| <= |order| + 1 && IsRun(s, es)
            && WaitingReaders(Final(s, es)) == {} && Final(s, es).readers.Keys == s.readers.Keys
            && (forall r :: Enabled(Final(s, es), ReceiveFlag(r)))
            && forall r :: r in s.readers ==>
                 ServedAt(s.readers[r], Final(s, es).readers[r], Final(s, es).current, |Final(s, es).fetches|)
  {
    var ready := if s.selecting then s else Apply(s, FetchDone(f));
    ReceivesKept(s, ready, order);
    ServeInOrder(ready, order);
    AllServed(s, Final(ready, Receives(ready, order)));
    if s.selecting {
      assert Selecting(s, f) + Receives(s, order) == Receives(s, order);
    } else {
      RunAfter(s, FetchDone(f), Receives(s, order));
    }
  }

  /** Nothing but its own receive ends a request's wait, and other requests cannot change it. */
  lemma {:induction false} WaitingIsPatient(s: State, es: seq<Event>, r: Reader)
    requires Waiting(s, r)
    requires ReceiveError(r) !in es && ReceiveGroups(r) !in es
    ensures Waiting(Final(s, es), r) && Final(s, es).readers[r] == s.readers[r]
  {
    if es != [] {
      var init, last := es[..|es| - 1], es[|es| - 1];
      assert es == init + [last];
      WaitingIsPatient(s, init, r);
    }
  }

  // ---------- the whole request ----------

  /** What `getGroupsConfig` returns: groups and error, each possibly nil. */
  datatype Answer = Answer(groups: GroupList, error: Option<AnswerError>)

  datatype AnswerError = FromUpdater(error: StoredError) | NoGroupsRetrieved

  function AnswerOf(p: Phase): Answer
    requires !p.WaitError? && !p.WaitGroups?
  {
    match p
    case NoFlag => Answer(Some([]), None)
    case GotError(_, _, None) => Answer(None, None)
    case GotError(_, _, Some(error)) => Answer(None, Some(FromUpdater(error)))
    case GotGroups(_, _, groups) => if groups.None? then Answer(None, Some(NoGroupsRetrieved)) else Answer(groups, None)
  }

  // ---------- what a request answers, by the events of its run ----------

  /** What the updater fetched in a run, in order. */
  function Fetches(es: seq<Event>): seq<Fetch>
  {
    if es == [] then [] else
      var before, last := Fetches(es[..|es| - 1]), es[|es| - 1];
      if last.FetchDone? then before + [last.fetch] else before
  }

  /** An event of request `r`. */
  predicate Own(e: Event, r: Reader)
  {
    e == ReceiveFlag(r) || e == MissFlag(r) || e == ReceiveError(r) || e == ReceiveGroups(r)
  }

  lemma FetchStep(s: State, e: Event)
    requires Enabled(s, e)
    ensures Apply(s, e).fetches == if e.FetchDone? then s.fetches + [e.fetch] else s.fetches
  {
  }

  lemma {:induction false} FetchesAreHistory(es: seq<Event>)
    requires IsRun(Initial(), es)
    ensures Final(Initial(), es).fetches == Fetches(es)
  {
    if es != [] {
      FetchesAreHistory(es[..|es| - 1]);
      FetchStep(Final(Initial(), es[..|es| - 1]), es[|es| - 1]);
    }
  }

  lemma {:induction false} RunPrefix(es: seq<Event>, n: nat)
    requires IsRun(Initial(), es) && n <= |es|
    ensures IsRun(Initial(), es[..n])
    ensures n < |es| ==>
              && Enabled(Final(Initial(), es[..n]), es[n])
              && Final(Initial(), es[..n + 1]) == Apply(Final(Initial(), es[..n]), es[n])
  {
    if n == |es| {
      assert es[..n] == es;
    } else {
      assert es[..n + 1][..n] == es[..n];
      if n + 1 == |es| {
        assert es[..n + 1] == es;
      } else {
        assert es[..|es| - 1][..n] == es[..n];
        RunPrefix(es[..|es| - 1], n);
      }
    }
  }

  /** The phase of a request that saw the flag after the fetches `seen`. */
  function AfterFlag(seen: seq<Fetch>): Phase
  {
    if LastFailed(seen) then WaitError(|seen|) else WaitGroups(|seen|)
  }

  lemma FlagStep(s: State, r: Reader)
    requires Inv(s) && Enabled(s, ReceiveFlag(r))
    ensures s.fetches != [] && r in Apply(s, ReceiveFlag(r)).readers
    ensures Apply(s, ReceiveFlag(r)).readers[r] == AfterFlag(s.fetches)
  {
  }

  lemma OthersStep(s: State, e: Event, r: Reader)
    requires r in s.readers && !Own(e, r)
    ensures r in Apply(s, e).readers && Apply(s, e).readers[r] == s.readers[r]
  {
  }

  /** Between its receives a request waits for what the flag told it. */
  lemma {:induction false} BetweenReceives(es: seq<Event>, i: nat, n: nat, r: Reader)
    requires IsRun(Initial(), es) && i < n <= |es| && es[i] == ReceiveFlag(r)
    requires forall k :: i < k < n ==> !Own(es[k], r)
    ensures Fetches(es[..i]) != []
    ensures var s := Final(Initial(), es[..n]); r in s.readers && s.readers[r] == AfterFlag(Fetches(es[..i]))
  {
    RunPrefix(es, n - 1);
    if n == i + 1 {
      InvRun(es[..i]);
      FetchesAreHistory(es[..i]);
      FlagStep(Final(Initial(), es[..i]), r);
    } else {
      BetweenReceives(es, i, n - 1, r);
      OthersStep(Final(Initial(), es[..n - 1]), es[n - 1], r);
    }
  }

  lemma {:induction false} FetchesGrow(es: seq<Event>, i: nat)
    requires i <= |es|
    ensures |Fetches(es[..i])| <= |Fetches(es)| && Fetches(es)[..|Fetches(es[..i])|] == Fetches(es[..i])
  {
    if i == |es| {
      assert es[..i] == es;
    } else {
      assert es[..|es| - 1][..i] == es[..i];
      FetchesGrow(es[..|es| - 1], i);
    }
  }

  lemma SecondStep(s: State, r: Reader, e: Event)
    requires Inv(s) && Enabled(s, e) && Waiting(s, r) && (e == ReceiveError(r) || e == ReceiveGroups(r))
    ensures var s' := Apply(s, e);
            && r in s'.readers && !Waiting(s', r)
            && (e == ReceiveError(r) <==> s.readers[r].WaitError?)
            && AnswerOf(s'.readers[r]) ==
               (if s.readers[r].WaitError? then
                  Answer(None, if LastFailed(s.fetches) then
                                 Some(FromUpdater(Translate(s.fetches[|s.fetches| - 1].error))) else None)
                else if LastSuccess(s.fetches).None? then Answer(None, Some(NoGroupsRetrieved))
                else Answer(LastSuccess(s.fetches), None))
  {
  }

  /** The answer of a request that saw the flag raised, after the fetches `got`: no groups, and the error of
      the last fetch, if that failed. */
  predicate AnswersWithError(a: Answer, got: seq<Fetch>)
    requires got != []
  {
    a == Answer(None, match got[|got| - 1]
                      case Fetched(_) => None
                      case Failed(UrlError(_)) => Some(FromUpdater(ContentServiceUnavailable))
                      case Failed(OtherError(m)) => Some(FromUpdater(Passed(OtherError(m)))))
  }

  /** The answer of a request that saw the flag down after `seen` fetches: the groups of the last successful
      one of `got`, which is no older than the last of those; if they are nil, an error. */
  ghost predicate AnswersWithGroups(a: Answer, seen: nat, got: seq<Fetch>)
  {
    && a.error == (if a.groups.None? then Some(NoGroupsRetrieved) else None)
    && exists k :: seen - 1 <= k < |got| && 0 <= k && got[k].Fetched? && a.groups == got[k].groups
                   && forall q :: k < q < |got| ==> got[q].Failed?
  }

  lemma GroupsAnswered(a: Answer, seen: nat, got: seq<Fetch>)
    requires 0 < seen <= |got| && got[seen - 1].Fetched?
    requires a == if LastSuccess(got).None? then Answer(None, Some(NoGroupsRetrieved))
                  else Answer(LastSuccess(got), None)
    ensures AnswersWithGroups(a, seen, got)
  {
    LastSuccessIsRecent(got, seen);
  }

  lemma BeforeSecondReceive(es: seq<Event>, i: nat, j: nat, r: Reader)
    requires IsRun(Initial(), es) && i < j <= |es| && es[i] == ReceiveFlag(r)
    requires forall k :: i < k < j ==> !Own(es[k], r)
    ensures var s, seen := Final(Initial(), es[..j]), Fetches(es[..i]);
            && Inv(s) && s.fetches == Fetches(es[..j])
            && 0 < |seen| <= |s.fetches| && s.fetches[..|seen|] == seen
            && r in s.readers && s.readers[r] == AfterFlag(seen)
  {
    BetweenReceives(es, i, j, r);
    RunPrefix(es, j);
    InvRun(es[..j]);
    FetchesAreHistory(es[..j]);
    assert es[..j][..i] == es[..i];
    FetchesGrow(es[..j], i);
  }

  lemma SecondAnswer(s: State, r: Reader, e: Event, seen: seq<Fetch>)
    requires Inv(s) && Enabled(s, e) && (e == ReceiveError(r) || e == ReceiveGroups(r))
    requires 0 < |seen| <= |s.fetches| && s.fetches[..|seen|] == seen
    requires r in s.readers && s.readers[r] == AfterFlag(seen)
    ensures var s' := Apply(s, e);
            && r in s'.readers && !Waiting(s', r) && (e == ReceiveError(r) <==> seen[|seen| - 1].Failed?)
            && if seen[|seen| - 1].Failed? then AnswersWithError(AnswerOf(s'.readers[r]), s.fetches)
               else AnswersWithGroups(AnswerOf(s'.readers[r]), |seen|, s.fetches)
  {
    SecondStep(s, r, e);
    assert s.fetches[..|seen|][|seen| - 1] == s.fetches[|seen| - 1];
    if seen[|seen| - 1].Fetched? {
      GroupsAnswered(AnswerOf(Apply(s, e).readers[r]), |seen|, s.fetches);
    }
  }

  /** In every run, what a request answers after seeing the flag at event `i` and receiving again at
      event `j`, by what was fetched before each. */
  lemma RequestAnswer(es: seq<Event>, i: nat, j: nat, r: Reader)
    requires IsRun(Initial(), es) && i < j < |es| && es[i] == ReceiveFlag(r)
    requires es[j] == ReceiveError(r) || es[j] == ReceiveGroups(r)
    requires forall k :: i < k < j ==> !Own(es[k], r)
    ensures var seen, got, s := Fetches(es[..i]), Fetches(es[..j]), Final(Initial(), es[..j + 1]);
            && 0 < |seen| <= |got| && r in s.readers && !Waiting(s, r)
            && (es[j] == ReceiveError(r) <==> seen[|seen| - 1].Failed?)
            && if seen[|seen| - 1].Failed? then AnswersWithError(AnswerOf(s.readers[r]), got)
               else AnswersWithGroups(AnswerOf(s.readers[r]), |seen|, got)
  {
    BeforeSecondReceive(es, i, j, r);
    RunPrefix(es, j);
    SecondAnswer(Final(Initial(), es[..j]), r, es[j], Fetches(es[..i]));
  }

  /** A request that misses the flag answers with an empty list and no error. */
  lemma MissedFlagAnswer(es: seq<Event>, j: nat, r: Reader)
    requires IsRun(Initial(), es) && j < |es| && es[j] == MissFlag(r)
    ensures var s := Final(Initial(), es[..j + 1]);
            r in s.readers && !Waiting(s, r) && AnswerOf(s.readers[r]) == Answer(Some([]), None)
  {
    RunPrefix(es, j);
  }

  /** A request that is not waiting can always go on: it may miss the flag at any time, and can receive it
      exactly while the updater selects. */
  lemma FlagOrMiss(s: State, r: Reader)
    requires !Waiting(s, r)
    ensures Enabled(s, MissFlag(r)) && (Enabled(s, ReceiveFlag(r)) <==> s.selecting)
  {
  }

  /** The polling never ends: from any state the updater can come to one more fetch, whatever it returns. */
  lemma PollingGoesOn(s: State, f: Fetch)
    ensures var es := if s.selecting then [Tick, FetchDone(f)] else [FetchDone(f)];
            IsRun(s, es) && Final(s, es).fetches == s.fetches + [f] && Final(s, es).selecting
  {
    if s.selecting {
      RunSnoc(s, [], Tick);
      RunSnoc(s, [Tick], FetchDone(f));
      assert [] + [Tick] == [Tick] && [Tick] + [FetchDone(f)] == [Tick, FetchDone(f)];
    } else {
      RunSnoc(s, [], FetchDone(f));
      assert [] + [FetchDone(f)] == [FetchDone(f)];
    }
  }

  /** A finished request reports no error yet carries no groups iff it saw the flag raised and the last
      fetch before its second receive succeeded. */
  lemma SilentNilIff(es: seq<Event>, r: Reader)
    requires var s := Final(Initial(), es); r in s.readers && !Waiting(s, r)
    ensures var s := Final(Initial(), es); var p := s.readers[r];
            AnswerOf(p) == Answer(None, None)
            <==> p.GotError? && 0 < p.at < p.until <= |s.fetches|
                 && s.fetches[p.at - 1].Failed? && s.fetches[p.until - 1].Fetched?
  {
    InvRun(es);
    var s := Final(Initial(), es);
    var p := s.readers[r];
    if p.GotError? {
      ErrorVanishesOnlyAfterSuccess(es, r);
      assert s.fetches[..p.at][p.at - 1] == s.fetches[p.at - 1];
    }
  }

  /** Such a run exists: the flag is seen raised, a fetch succeeds, the error arrives nil. */
  lemma SilentNilHappens(gs: seq<Group>)
    ensures var es := [FetchDone(Failed(OtherError("down"))), ReceiveFlag(0), Tick, FetchDone(Fetched(Some(gs))),
                       ReceiveError(0)];
            var s := Final(Initial(), es);
            0 in s.readers && s.readers[0].GotError? && AnswerOf(s.readers[0]) == Answer(None, None)
  {
    var e0, e1 := FetchDone(Failed(OtherError("down"))), ReceiveFlag(0);
    var e3, e4 := FetchDone(Fetched(Some(gs))), ReceiveError(0);
    var a := [] + [e0];
    var b := a + [e1];
    var c := b + [Tick];
    var d := c + [e3];
    FinalSnoc([], e0);
    FinalSnoc(a, e1);
    FinalSnoc(b, Tick);
    FinalSnoc(c, e3);
    FinalSnoc(d, e4);
    assert d + [e4] == [e0, e1, Tick, e3, e4];
  }

  lemma FinalSnoc(es: seq<Event>, e: Event)
    ensures Final(Initial(), es + [e]) == Apply(Final(Initial(), es), e)
  {
    assert (es + [e])[..|es|] == es;
  }
}
