/**
 One debugger attachment per tab, shared by input actions and network captures through three nested
 reference counts. Commands to the browser can fail; acquire and release on a tab are serial.
 */
module DebuggerSessions {

  type TabId = nat

  /** The counts of a tab's session, and what the browser has switched on for it. A tab without a
      session is all zero and off. */
  datatype Tab = Tab(references: int, networkReferences: int, cacheDisabledReferences: int,
                     networkOn: bool, cacheDisabled: bool)

  const IDLE := Tab(0, 0, 0, false, false)

  /** The operations on a tab, with the fate of the commands each may send. */
  datatype Op =
    | Acquire(attach: bool)
    | Release
    | AcquireNetwork(uncached: bool, attach: bool, enable: bool, disableCache: bool, disable: bool)
    | ReleaseNetwork(uncached: bool, enableCache: bool, disable: bool)

  /** Whether an acquire succeeds. */
  ghost predicate Succeeds(tab: Tab, op: Op) {
    match op
    case Acquire(attach) => tab.references > 0 || attach
    case AcquireNetwork(uncached, attach, enable, disableCache, _) =>
      && (tab.references > 0 || attach)
      && (tab.networkReferences > 0 || enable)
      && (uncached && tab.cacheDisabledReferences == 0 ==> disableCache)
    case _ => true
  }

  function Less(n: int): int { if n > 0 then n - 1 else 0 }

  /** The effect of an operation. A failed acquire leaves every count as it was. */
  ghost function After(tab: Tab, op: Op): Tab {
    match op
    case Acquire(_) => if Succeeds(tab, op) then tab.(references := tab.references + 1) else tab
    case Release => if tab.references > 1 then tab.(references := tab.references - 1) else IDLE
    case AcquireNetwork(uncached, attach, enable, _, disable) =>
      if Succeeds(tab, op) then
        Tab(tab.references + 1, tab.networkReferences + 1,
            tab.cacheDisabledReferences + if uncached then 1 else 0,
            tab.networkReferences == 0 || tab.networkOn,
            (uncached && tab.cacheDisabledReferences == 0) || tab.cacheDisabled)
      else if tab.references == 0 || tab.networkReferences > 0 || !enable then tab
      else tab.(networkOn := !disable)
    case ReleaseNetwork(uncached, enableCache, disable) =>
      if tab.references <= 1 then IDLE
      else
        var network := Less(tab.networkReferences);
        var cache := if uncached then Less(tab.cacheDisabledReferences) else tab.cacheDisabledReferences;
        Tab(tab.references - 1, network, cache,
            tab.networkOn && !(network == 0 && disable),
            tab.cacheDisabled && !(uncached && cache == 0 && enableCache))
  }

  datatype Session = Session(references: int, networkReferences: int, cacheDisabledReferences: int)

  class Debugger {
    var sessions: map<TabId, Session>
    /** What the browser has switched on: attached tabs with their Network domain and cache override. */
    var network: set<TabId>
    var uncached: set<TabId>

    ghost predicate Valid()
      reads this
    {
      && network <= sessions.Keys && uncached <= sessions.Keys
      && forall tab :: tab in sessions ==> sessions[tab].references > 0
    }

    twostate predicate OthersUntouched(tab: TabId)
      reads this
    {
      && sessions - {tab} == old(sessions) - {tab}
      && network - {tab} == old(network) - {tab}
      && uncached - {tab} == old(uncached) - {tab}
    }

    ghost function View(tab: TabId): Tab
      reads this
    {
      if tab in sessions
      then Tab(sessions[tab].references, sessions[tab].networkReferences, sessions[tab].cacheDisabledReferences,
               tab in network, tab in uncached)
      else IDLE
    }

    constructor ()
      ensures Valid() && forall tab :: View(tab) == IDLE
    {
      sessions, network, uncached := map[], {}, {};
    }

    method AcquireDebugger(tab: TabId, attach: bool) returns (ok: bool)
      requires Valid()
      modifies this
      ensures Valid() && ok == Succeeds(old(View(tab)), Acquire(attach))
      ensures View(tab) == After(old(View(tab)), Acquire(attach))
      ensures OthersUntouched(tab)
    {
      if tab in sessions {
        sessions := sessions[tab := sessions[tab].(references := sessions[tab].references + 1)];
        return true;
      }
      sessions := sessions[tab := Session(1, 0, 0)];
      if !attach {
        sessions := sessions - {tab};
      }
      return attach;
    }

    method ReleaseDebugger(tab: TabId)
      requires Valid()
      modifies this
      ensures Valid() && View(tab) == After(old(View(tab)), Release)
      ensures OthersUntouched(tab)
    {
      if tab !in sessions {
        return;
      }
      var session := sessions[tab];
      session := session.(references := session.references - 1);
      sessions := sessions[tab := session];
      if session.references > 0 {
        return;
      }
      sessions, network, uncached := sessions - {tab}, network - {tab}, uncached - {tab};
    }

    method AcquireNetworkDebugger(tab: TabId, withoutCache: bool, attach: bool, enable: bool, disableCache: bool, disable: bool)
      returns (ok: bool)
      requires Valid() && View(tab).networkReferences >= 0 && View(tab).cacheDisabledReferences >= 0
      modifies this
      ensures var op := AcquireNetwork(withoutCache, attach, enable, disableCache, disable);
        Valid() && ok == Succeeds(old(View(tab)), op) && View(tab) == After(old(View(tab)), op)
      ensures OthersUntouched(tab)
    {
      ok := AcquireDebugger(tab, attach);
      if !ok {
        return false;
      }
      ok := EnableNetwork(tab, enable);
      if ok && withoutCache {
        ok := BypassCache(tab, disableCache, disable);
      }
    }

    /** The first half of a network acquire, on a tab already acquired. */
    method EnableNetwork(tab: TabId, enable: bool) returns (ok: bool)
      requires Valid() && tab in sessions
      modifies this
      ensures Valid() && OthersUntouched(tab) && ok == (old(View(tab)).networkReferences != 0 || enable)
      ensures var was := old(View(tab));
        View(tab) ==
          if ok then was.(networkReferences := was.networkReferences + 1,
                          networkOn := was.networkReferences == 0 || was.networkOn)
          else After(was, Release)
    {
      var session := sessions[tab];
      sessions := sessions[tab := session.(networkReferences := session.networkReferences + 1)];
      if session.networkReferences == 0 {
        if enable {
          network := network + {tab};
        } else {
          sessions := sessions[tab := session];
          ReleaseDebugger(tab);
          return false;
        }
      }
      return true;
    }

    /** The second half of a network acquire that wants the cache off; on failure it undoes the first. */
    method BypassCache(tab: TabId, disableCache: bool, disable: bool) returns (ok: bool)
      requires Valid() && tab in sessions && View(tab).networkReferences > 0
      modifies this
      ensures Valid() && ok == (old(View(tab)).cacheDisabledReferences != 0 || disableCache)
      ensures OthersUntouched(tab)
      ensures var was := old(View(tab));
        View(tab) ==
          if ok then was.(cacheDisabledReferences := was.cacheDisabledReferences + 1,
                          cacheDisabled := was.cacheDisabledReferences == 0 || was.cacheDisabled)
          else After(was.(networkReferences := was.networkReferences - 1,
                          networkOn := was.networkOn && !(was.networkReferences == 1 && disable)), Release)
    {
      var session := sessions[tab];
      sessions := sessions[tab := session.(cacheDisabledReferences := session.cacheDisabledReferences + 1)];
      if session.cacheDisabledReferences == 0 {
        if disableCache {
          uncached := uncached + {tab};
        } else {
          sessions := sessions[tab := session.(networkReferences := session.networkReferences - 1)];
          if session.networkReferences - 1 == 0 && disable {
            network := network - {tab};
          }
          ReleaseDebugger(tab);
          return false;
        }
      }
      return true;
    }

    method ReleaseNetworkDebugger(tab: TabId, withoutCache: bool, enableCache: bool, disable: bool)
      requires Valid()
      modifies this
      ensures Valid() && View(tab) == After(old(View(tab)), ReleaseNetwork(withoutCache, enableCache, disable))
      ensures OthersUntouched(tab)
    {
      if tab !in sessions {
        return;
      }
      var session := sessions[tab];
      if withoutCache {
        session := session.(cacheDisabledReferences := Less(session.cacheDisabledReferences));
        if session.cacheDisabledReferences == 0 && enableCache {
          uncached := uncached - {tab};
        }
      }
      session := session.(networkReferences := Less(session.networkReferences));
      if session.networkReferences == 0 && disable {
        network := network - {tab};
      }
      sessions := sessions[tab := session];
      ReleaseDebugger(tab);
    }
  }

  // ----- Runs on one tab -----

  /** Who holds the tab: plain users, captures, and captures that bypass the cache. */
  datatype Holders = Holders(plain: nat, captures: nat, uncachedCaptures: nat)

  /** A release is matched: somebody of its kind holds the tab. */
  ghost predicate Matched(h: Holders, op: Op) {
    match op
    case Release => h.plain > 0
    case ReleaseNetwork(uncached, _, _) => if uncached then h.uncachedCaptures > 0 else h.captures > 0
    case _ => true
  }

  ghost function NextHolders(h: Holders, tab: Tab, op: Op): Holders
    requires Matched(h, op)
  {
    match op
    case Acquire(_) => if Succeeds(tab, op) then h.(plain := h.plain + 1) else h
    case Release => h.(plain := h.plain - 1)
    case AcquireNetwork(uncached, _, _, _, _) =>
      if !Succeeds(tab, op) then h
      else if uncached then h.(uncachedCaptures := h.uncachedCaptures + 1)
      else h.(captures := h.captures + 1)
    case ReleaseNetwork(uncached, _, _) =>
      if uncached then h.(uncachedCaptures := h.uncachedCaptures - 1) else h.(captures := h.captures - 1)
  }

  /** The counts are the numbers of holders, and what a holder needs is on. */
  ghost predicate Consistent(tab: Tab, h: Holders) {
    && tab.references == h.plain + h.captures + h.uncachedCaptures
    && tab.networkReferences == h.captures + h.uncachedCaptures
    && tab.cacheDisabledReferences == h.uncachedCaptures
    && (tab.references == 0 ==> tab == IDLE)
    && (tab.networkReferences > 0 ==> tab.networkOn)
    && (tab.cacheDisabledReferences > 0 ==> tab.cacheDisabled)
  }

  /** Nothing is on that nobody needs. */
  ghost predicate Tidy(tab: Tab) {
    (tab.networkOn ==> tab.networkReferences > 0) && (tab.cacheDisabled ==> tab.cacheDisabledReferences > 0)
  }

  /** A refused Network.disable: the last capture goes and the session stays, or a first capture that is
      to bypass the cache cannot, and is undone. */
  ghost predicate LeavesNetworkOn(tab: Tab, op: Op) {
    match op
    case AcquireNetwork(uncached, _, enable, disableCache, disable) =>
      tab.references > 0 && tab.networkReferences == 0 && enable && uncached && !disableCache && !disable
    case ReleaseNetwork(_, _, disable) => tab.references > 1 && tab.networkReferences == 1 && !disable
    case _ => false
  }

  /** The command to use the cache again is refused to the last capture that bypassed it, and the session stays. */
  ghost predicate LeavesCacheOff(tab: Tab, op: Op) {
    op.ReleaseNetwork? && op.uncached && tab.references > 1 && tab.cacheDisabledReferences == 1 && !op.enableCache
  }

  ghost predicate LeavesOn(tab: Tab, op: Op) { LeavesNetworkOn(tab, op) || LeavesCacheOff(tab, op) }

  ghost predicate IsRun(tab: Tab, h: Holders, ops: seq<Op>)
    decreases |ops|
  {
    ops == [] || (Matched(h, ops[0]) && IsRun(After(tab, ops[0]), NextHolders(h, tab, ops[0]), ops[1..]))
  }

  ghost function Final(tab: Tab, h: Holders, ops: seq<Op>): (Tab, Holders)
    requires IsRun(tab, h, ops)
    decreases |ops|
  {
    if ops == [] then (tab, h) else Final(After(tab, ops[0]), NextHolders(h, tab, ops[0]), ops[1..])
  }

  lemma StepKeepsCounts(tab: Tab, h: Holders, op: Op)
    requires Consistent(tab, h) && Matched(h, op)
    ensures Consistent(After(tab, op), NextHolders(h, tab, op))
  {
    match op {
      case Acquire(_) =>
      case Release =>
      case AcquireNetwork(uncached, _, _, _, _) => assert uncached || !uncached;
      case ReleaseNetwork(uncached, _, _) => assert uncached || !uncached;
    }
  }

  /** What each operation leaves, domain and cache override apart. */
  lemma StepTidyIff(tab: Tab, h: Holders, op: Op)
    requires Consistent(tab, h) && Matched(h, op) && Tidy(tab)
    ensures var t := After(tab, op);
      && ((t.networkOn <==> t.networkReferences > 0) <==> !LeavesNetworkOn(tab, op))
      && ((t.cacheDisabled <==> t.cacheDisabledReferences > 0) <==> !LeavesCacheOff(tab, op))
      && (Tidy(t) <==> !LeavesOn(tab, op))
  {
  }

  /** No operation of the run leaves something on. */
  ghost predicate NothingLeft(tab: Tab, h: Holders, ops: seq<Op>)
    requires IsRun(tab, h, ops)
    decreases |ops|
  {
    ops == [] || (!LeavesOn(tab, ops[0]) && NothingLeft(After(tab, ops[0]), NextHolders(h, tab, ops[0]), ops[1..]))
  }

  /** The tab is tidy before, between and after all operations. */
  ghost predicate TidyThroughout(tab: Tab, h: Holders, ops: seq<Op>)
    requires IsRun(tab, h, ops)
    decreases |ops|
  {
    Tidy(tab) && (ops == [] || TidyThroughout(After(tab, ops[0]), NextHolders(h, tab, ops[0]), ops[1..]))
  }

  /** Over any matched run, whatever fails, the counts are right and every holder has what it needs. */
  lemma {:induction false} RunKeepsCounts(tab: Tab, h: Holders, ops: seq<Op>)
    requires Consistent(tab, h) && IsRun(tab, h, ops)
    ensures Consistent(Final(tab, h, ops).0, Final(tab, h, ops).1)
    decreases |ops|
  {
    if ops != [] {
      StepKeepsCounts(tab, h, ops[0]);
      RunKeepsCounts(After(tab, ops[0]), NextHolders(h, tab, ops[0]), ops[1..]);
    }
  }

  /** Over any matched run from a tidy tab: it is tidy all the time exactly if no operation leaves
      something on, that is, if no refused command was to switch off what nobody needs any more. */
  lemma {:induction false} TidyThroughoutIff(tab: Tab, h: Holders, ops: seq<Op>)
    requires Consistent(tab, h) && Tidy(tab) && IsRun(tab, h, ops)
    ensures TidyThroughout(tab, h, ops) <==> NothingLeft(tab, h, ops)
    ensures NothingLeft(tab, h, ops) ==> Tidy(Final(tab, h, ops).0)
    decreases |ops|
  {
    if ops != [] {
      var t, g := After(tab, ops[0]), NextHolders(h, tab, ops[0]);
      StepKeepsCounts(tab, h, ops[0]);
      StepTidyIff(tab, h, ops[0]);
      if Tidy(t) {
        TidyThroughoutIff(t, g, ops[1..]);
      }
    }
  }

  /** After any matched run from an idle tab: the three counts are nested, the tab is attached exactly
      while somebody holds it, a capture always has its domain and its cache override, and both are
      on exactly then unless an operation of the run left something on. */
  lemma NestedCounts(ops: seq<Op>)
    requires IsRun(IDLE, Holders(0, 0, 0), ops)
    ensures var (tab, h) := Final(IDLE, Holders(0, 0, 0), ops);
      && 0 <= tab.cacheDisabledReferences <= tab.networkReferences <= tab.references
      && (tab.references == 0 <==> h == Holders(0, 0, 0))
      && (h.captures + h.uncachedCaptures > 0 ==> tab.networkOn)
      && (h.uncachedCaptures > 0 ==> tab.cacheDisabled)
      && (NothingLeft(IDLE, Holders(0, 0, 0), ops) ==>
            && (tab.networkOn <==> h.captures + h.uncachedCaptures > 0)
            && (tab.cacheDisabled <==> h.uncachedCaptures > 0))
  {
    RunKeepsCounts(IDLE, Holders(0, 0, 0), ops);
    TidyThroughoutIff(IDLE, Holders(0, 0, 0), ops);
  }

  lemma RunOfThree(a: Op, b: Op, c: Op, t1: Tab, h1: Holders, t2: Tab, h2: Holders, t3: Tab, h3: Holders)
    requires t1 == After(IDLE, a) && Matched(Holders(0, 0, 0), a) && h1 == NextHolders(Holders(0, 0, 0), IDLE, a)
    requires t2 == After(t1, b) && Matched(h1, b) && h2 == NextHolders(h1, t1, b)
    requires t3 == After(t2, c) && Matched(h2, c) && h3 == NextHolders(h2, t2, c)
    ensures IsRun(IDLE, Holders(0, 0, 0), [a, b, c]) && Final(IDLE, Holders(0, 0, 0), [a, b, c]) == (t3, h3)
  {
    hide After;
    hide NextHolders;
    hide Matched;
    assert [a, b, c][1..] == [b, c] && [b, c][1..] == [c] && [c][1..] == [];
    assert IsRun(t3, h3, []) && Final(t3, h3, []) == (t3, h3);
    assert IsRun(t2, h2, [c]) && Final(t2, h2, [c]) == (t3, h3);
    assert IsRun(t1, h1, [b, c]) && Final(t1, h1, [b, c]) == (t3, h3);
  }

  /** A refused Network.disable leaves the domain on with nobody capturing. */
  lemma RefusedDisableLeavesDomainOn()
    ensures var ops := [Acquire(true), AcquireNetwork(false, true, true, true, true), ReleaseNetwork(false, true, false)];
      && IsRun(IDLE, Holders(0, 0, 0), ops)
      && Final(IDLE, Holders(0, 0, 0), ops) == (Tab(1, 0, 0, true, false), Holders(1, 0, 0))
  {
    hide IsRun;
    hide Final;
    RunOfThree(Acquire(true), AcquireNetwork(false, true, true, true, true), ReleaseNetwork(false, true, false),
      Tab(1, 0, 0, false, false), Holders(1, 0, 0), Tab(2, 1, 0, true, false), Holders(1, 1, 0),
      Tab(1, 0, 0, true, false), Holders(1, 0, 0));
  }

  /** A refused command to use the cache again leaves the override on for captures that did not ask for it. */
  lemma RefusedEnableLeavesCacheOff()
    ensures var ops := [AcquireNetwork(false, true, true, true, true), AcquireNetwork(true, true, true, true, true),
                        ReleaseNetwork(true, false, true)];
      && IsRun(IDLE, Holders(0, 0, 0), ops)
      && Final(IDLE, Holders(0, 0, 0), ops) == (Tab(1, 1, 0, true, true), Holders(0, 1, 0))
  {
    hide IsRun;
    hide Final;
    RunOfThree(AcquireNetwork(false, true, true, true, true), AcquireNetwork(true, true, true, true, true),
      ReleaseNetwork(true, false, true), Tab(1, 1, 0, true, false), Holders(0, 1, 0), Tab(2, 2, 1, true, true),
      Holders(0, 1, 1), Tab(1, 1, 0, true, true), Holders(0, 1, 0));
  }
}
