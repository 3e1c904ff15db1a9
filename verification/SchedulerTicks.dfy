/**
 The scheduler's tick: which monitors have a task, which are due, which are paused; and the count of
 runs in progress.

 How expressions and a time zone turn into instants is left to `calendar`, which gives the `next`
 function of a monitor's schedules together, or None if one of them or the zone is invalid.
 */
module SchedulerTicks {
  import opened Wrappers
  import opened Schedules

  type MonitorId = string

  datatype Monitor = Monitor(id: MonitorId, enabled: bool, available: bool, schedules: seq<string>, moduleName: string)

  type Calendar = (seq<string>, string) -> Option<Instant -> Instant>

  ghost predicate Sane(calendar: Calendar) {
    forall schedules, zone :: calendar(schedules, zone).Some? ==> SetShaped(calendar(schedules, zone).value)
  }

  predicate Runnable(m: Monitor) { m.enabled && m.available }

  /** Two lists of schedules count as the same if they join to the same string. */
  function Signature(schedules: seq<string>): string {
    if schedules == [] then ""
    else if |schedules| == 1 then schedules[0]
    else schedules[0] + "\0" + Signature(schedules[1..])
  }

  /** A monitor's task. The base, kept for the statements below only, is the time from which its next
      instant was last computed. */
  datatype Entry = NoTask | Task(schedules: seq<string>, next: Instant, base: Instant)

  // ----- One tick, one monitor -----

  ghost function Ticked(calendar: Calendar, entry: Entry, zone: string, m: Monitor, now: Instant): (Entry, bool) {
    var renewed := Renewed(calendar, entry, zone, m, now);
    if renewed.NoTask? || now < renewed.next || Signature(renewed.schedules) != Signature(m.schedules) then (renewed, false)
    else
      match calendar(renewed.schedules, zone)
      case None => (renewed, false)
      case Some(next) => (Task(renewed.schedules, next(now), now), true)
  }

  /** A missing or outdated task is replaced, unless the new schedules are invalid. */
  ghost function Renewed(calendar: Calendar, entry: Entry, zone: string, m: Monitor, now: Instant): Entry {
    if entry.Task? && Signature(entry.schedules) == Signature(m.schedules) then entry
    else
      match calendar(m.schedules, zone)
      case None => entry
      case Some(next) => Task(m.schedules, next(now), now)
  }

  /** What a tick sees of a monitor, if it is listed at all. */
  datatype Sight = Sight(now: Instant, zone: string, monitor: Option<Monitor>)

  /** A monitor's entry after a tick, and whether the monitor is due, given the zone of the tick before. */
  ghost function AfterTick(calendar: Calendar, entry: Entry, lastZone: string, s: Sight): (Entry, bool) {
    if s.monitor.None? || !Runnable(s.monitor.value) then (NoTask, false)
    else Ticked(calendar, if s.zone == lastZone then entry else NoTask, s.zone, s.monitor.value, s.now)
  }

  /** The next instant is the first one after the base. */
  ghost predicate Current(calendar: Calendar, entry: Entry, zone: string) {
    entry.Task? ==>
      calendar(entry.schedules, zone).Some? && entry.next == calendar(entry.schedules, zone).value(entry.base)
  }

  class Scheduler {
    const calendar: Calendar
    var tasks: map<MonitorId, Entry>
    var paused: map<MonitorId, string>
    var invalid: map<MonitorId, string>
    var lastZone: string

    ghost predicate Valid()
      reads this
    {
      Sane(calendar) && forall id :: id in tasks ==> tasks[id].Task? && Current(calendar, tasks[id], lastZone)
    }

    constructor (calendar: Calendar, zone: string)
      requires Sane(calendar)
      ensures Valid() && lastZone == zone && this.calendar == calendar && tasks == map[] && paused == map[]
    {
      this.calendar := calendar;
      tasks, paused, invalid, lastZone := map[], map[], map[], zone;
    }

    /** One monitor that is enabled and available; the zone of the tick is already in force. */
    method Visit(m: Monitor, now: Instant) returns (due: bool)
      requires Valid()
      modifies this`tasks, this`invalid
      ensures Valid() && (Get(tasks, m.id), due) == Ticked(calendar, old(Get(tasks, m.id)), lastZone, m, now)
      ensures tasks - {m.id} == old(tasks) - {m.id}
    {
      var signature := Signature(m.schedules);
      if m.id !in tasks || Signature(tasks[m.id].schedules) != signature {
        var schedule := calendar(m.schedules, lastZone);
        if schedule.None? {
          invalid := invalid[m.id := signature];
          return false;
        }
        invalid := invalid - {m.id};
        tasks := tasks[m.id := Task(m.schedules, schedule.value(now), now)];
      }
      due := Advance(m.id, now);
    }

    /** Advances a task whose next instant has come. */
    method Advance(id: MonitorId, now: Instant) returns (due: bool)
      requires Valid() && id in tasks
      modifies this`tasks
      ensures Valid() && due == (old(tasks[id]).next <= now)
      ensures calendar(old(tasks[id]).schedules, lastZone).Some?
      ensures tasks == if due
        then old(tasks)[id := Task(old(tasks[id]).schedules, calendar(old(tasks[id]).schedules, lastZone).value(now), now)]
        else old(tasks)
    {
      var task := tasks[id];
      if now < task.next {
        return false;
      }
      var schedule := calendar(task.schedules, lastZone);
      if schedule.None? {
        assert false;
        return false;
      }
      tasks := tasks[id := task.(next := schedule.value(now), base := now)];
      return true;
    }

    method Pause(m: Monitor)
      modifies this`paused
      ensures m.id in paused <==> m.enabled && !m.available
      ensures paused - {m.id} == old(paused) - {m.id}
    {
      if !m.enabled {
        paused := paused - {m.id};
      } else if !m.available {
        paused := paused[m.id := m.moduleName];
      } else {
        paused := paused - {m.id};
      }
    }

    /** The loop over the listed monitors. */
    method VisitAll(monitors: seq<Monitor>, now: Instant) returns (due: seq<MonitorId>, present: set<MonitorId>)
      requires Valid() && Distinct(monitors)
      modifies this`tasks, this`paused, this`invalid
      ensures Valid() && TasksUpTo(calendar, lastZone, now, monitors, |monitors|, old(tasks), tasks, present, due)
      ensures PausedUpTo(monitors, |monitors|, old(paused), paused)
    {
      due, present := [], {};
      for i := 0 to |monitors|
        invariant Valid()
        invariant TasksUpTo(calendar, lastZone, now, monitors, i, old(tasks), tasks, present, due)
        invariant PausedUpTo(monitors, i, old(paused), paused)
      {
        var m := monitors[i];
        ghost var tasks0, due0, paused0 := tasks, due, paused;
        Pause(m);
        PausedStep(monitors, i, old(paused), paused0, paused);
        var isDue := false;
        if Runnable(m) {
          isDue := Visit(m, now);
          if isDue {
            due := due + [m.id];
          }
        }
        TasksStep(calendar, lastZone, now, monitors, i, old(tasks), tasks0, tasks, present, due0, isDue);
        present := if Runnable(m) then present + {m.id} else present;
      }
    }

    /** What belongs to monitors that did not run goes: their tasks, and what the paused ones no longer need. */
    method Sweep(monitors: seq<Monitor>, present: set<MonitorId>)
      requires Valid()
      modifies this`tasks, this`paused, this`invalid
      ensures Valid() && tasks == (map id | id in old(tasks) && id in present :: old(tasks)[id])
      ensures forall id :: id in paused <==> id in old(paused) && (id in present || ExistsAndEnabled(monitors, id))
    {
      invalid := map id | id in invalid && (id in present || id !in tasks) :: invalid[id];
      tasks := map id | id in tasks && id in present :: tasks[id];
      paused := map id | id in paused && (id in present || ExistsAndEnabled(monitors, id)) :: paused[id];
    }

    /** A tick. If the monitors cannot be listed, nothing happens. */
    method SyncAndRun(listed: Option<seq<Monitor>>, zone: string, now: Instant) returns (due: seq<MonitorId>)
      requires Valid() && (listed.Some? ==> Distinct(listed.value))
      modifies this`tasks, this`paused, this`invalid, this`lastZone
      ensures Valid()
      ensures listed.None? ==>
                due == [] && tasks == old(tasks) && paused == old(paused) && invalid == old(invalid) && lastZone == old(lastZone)
      ensures listed.Some? ==>
                && lastZone == zone
                && (forall id :: (Get(tasks, id), id in due)
                      == AfterTick(calendar, old(Get(tasks, id)), old(lastZone), Sight(now, zone, Find(listed.value, id))))
                && (forall id :: id in paused <==> IsPaused(listed.value, id))
      ensures listed.Some? ==>
                && (forall m :: m in listed.value && m.enabled && m.available && BasedBy(old(Get(tasks, m.id)), now) ==>
                      calendar(m.schedules, zone).Some? ==>
                      m.id in tasks && IsScheduled(calendar, zone, tasks[m.id], m.schedules, now))
                && (forall id :: id in tasks || id in due ==> exists m :: m in listed.value && m.id == id && m.enabled && m.available)
    {
      if listed.None? {
        return [];
      }
      if lastZone != zone {
        tasks, invalid, lastZone := map[], map[], zone;
      }
      ghost var start := tasks;
      var present;
      due, present := VisitAll(listed.value, now);
      ghost var visited, waiting := tasks, paused;
      Sweep(listed.value, present);
      forall id
        ensures (Get(tasks, id), id in due)
             == AfterTick(calendar, old(Get(tasks, id)), old(lastZone), Sight(now, zone, Find(listed.value, id)))
      {
        SweptTask(calendar, zone, now, listed.value, start, visited, present, due, id);
        if zone != old(lastZone) {
          assert Get(start, id) == NoTask;
        }
      }
      forall id
        ensures id in paused <==> IsPaused(listed.value, id)
      {
        SweptPaused(calendar, zone, now, listed.value, start, visited, present, due, old(paused), waiting, id);
      }
      forall m | m in listed.value && m.enabled && m.available && calendar(m.schedules, zone).Some? && BasedBy(old(Get(tasks, m.id)), now)
        ensures m.id in tasks && IsScheduled(calendar, zone, tasks[m.id], m.schedules, now)
      {
        TickSchedules(calendar, old(Get(tasks, m.id)), old(lastZone), zone, listed.value, m, now);
      }
      forall id | id in tasks || id in due
        ensures exists m :: m in listed.value && m.id == id && m.enabled && m.available
      {
        OnlyRunnableTicked(calendar, old(Get(tasks, id)), old(lastZone), Sight(now, zone, Find(listed.value, id)));
        assert Find(listed.value, id).value in listed.value;
      }
    }
  }

  /** Listed, enabled, and its module not available. */
  predicate IsPaused(monitors: seq<Monitor>, id: MonitorId) {
    var m := Find(monitors, id);
    m.Some? && m.value.enabled && !m.value.available
  }

  /** After the first i monitors: those that can run are present and ticked, nothing else has changed. */
  ghost predicate TasksUpTo(
      calendar: Calendar, zone: string, now: Instant, monitors: seq<Monitor>, i: nat,
      start: map<MonitorId, Entry>, tasks: map<MonitorId, Entry>, present: set<MonitorId>, due: seq<MonitorId>)
    requires i <= |monitors|
  {
    && (forall id :: id in present <==> exists k :: 0 <= k < i && monitors[k].id == id && Runnable(monitors[k]))
    && (forall id :: id !in present ==> Get(tasks, id) == Get(start, id) && id !in due)
    && (forall k :: 0 <= k < i && Runnable(monitors[k]) ==>
          (Get(tasks, monitors[k].id), monitors[k].id in due)
          == Ticked(calendar, Get(start, monitors[k].id), zone, monitors[k], now))
  }

  lemma TasksStep(
      calendar: Calendar, zone: string, now: Instant, monitors: seq<Monitor>, i: nat, start: map<MonitorId, Entry>,
      tasks: map<MonitorId, Entry>, tasks': map<MonitorId, Entry>, present: set<MonitorId>, due: seq<MonitorId>, isDue: bool)
    requires i < |monitors| && Distinct(monitors)
    requires TasksUpTo(calendar, zone, now, monitors, i, start, tasks, present, due)
    requires Runnable(monitors[i]) ==>
               && tasks' - {monitors[i].id} == tasks - {monitors[i].id}
               && (Get(tasks', monitors[i].id), isDue) == Ticked(calendar, Get(tasks, monitors[i].id), zone, monitors[i], now)
    requires !Runnable(monitors[i]) ==> tasks' == tasks && !isDue
    ensures TasksUpTo(calendar, zone, now, monitors, i + 1, start, tasks',
              if Runnable(monitors[i]) then present + {monitors[i].id} else present,
              if isDue then due + [monitors[i].id] else due)
  {
    hide Ticked;
    hide Get;
    var m := monitors[i];
    assert m.id !in present;
    OthersKept(m.id, tasks, tasks');
  }

  lemma OthersKept(changed: MonitorId, tasks: map<MonitorId, Entry>, tasks': map<MonitorId, Entry>)
    requires tasks' - {changed} == tasks - {changed}
    ensures forall id :: id != changed ==> Get(tasks', id) == Get(tasks, id)
  {
    forall id | id != changed
      ensures Get(tasks', id) == Get(tasks, id)
    {
      assert id in tasks <==> id in tasks - {changed};
      assert id in tasks' <==> id in tasks' - {changed};
    }
  }

  ghost predicate PausedUpTo(monitors: seq<Monitor>, i: nat, start: map<MonitorId, string>, paused: map<MonitorId, string>)
    requires i <= |monitors|
  {
    && (forall k :: 0 <= k < i ==> (monitors[k].id in paused <==> monitors[k].enabled && !monitors[k].available))
    && (forall id :: (forall k :: 0 <= k < i ==> monitors[k].id != id) ==> (id in paused <==> id in start))
  }

  lemma PausedStep(monitors: seq<Monitor>, i: nat, start: map<MonitorId, string>, paused: map<MonitorId, string>, paused': map<MonitorId, string>)
    requires i < |monitors| && Distinct(monitors) && PausedUpTo(monitors, i, start, paused)
    requires monitors[i].id in paused' <==> monitors[i].enabled && !monitors[i].available
    requires paused' - {monitors[i].id} == paused - {monitors[i].id}
    ensures PausedUpTo(monitors, i + 1, start, paused')
  {
    forall id | id != monitors[i].id
      ensures id in paused' <==> id in paused
    {
      assert id in paused <==> id in paused - {monitors[i].id};
      assert id in paused' <==> id in paused' - {monitors[i].id};
    }
  }

  lemma FindUnique(monitors: seq<Monitor>, id: MonitorId)
    requires Distinct(monitors)
    ensures if Find(monitors, id).None? then forall k :: 0 <= k < |monitors| ==> monitors[k].id != id
            else exists k :: 0 <= k < |monitors| && monitors[k].id == id && Find(monitors, id).value == monitors[k]
  {
  }

  /** Removing the tasks of monitors that did not run leaves what the tick should leave. */
  lemma SweptTask(
      calendar: Calendar, zone: string, now: Instant, monitors: seq<Monitor>, start: map<MonitorId, Entry>,
      tasks: map<MonitorId, Entry>, present: set<MonitorId>, due: seq<MonitorId>, id: MonitorId)
    requires Distinct(monitors) && TasksUpTo(calendar, zone, now, monitors, |monitors|, start, tasks, present, due)
    ensures (if id in present then Get(tasks, id) else NoTask, id in due)
         == AfterTick(calendar, Get(start, id), zone, Sight(now, zone, Find(monitors, id)))
  {
    FindUnique(monitors, id);
  }

  ghost predicate Distinct(monitors: seq<Monitor>) {
    forall i, j :: 0 <= i < j < |monitors| ==> monitors[i].id != monitors[j].id
  }

  ghost function Get(entries: map<MonitorId, Entry>, id: MonitorId): Entry {
    if id in entries then entries[id] else NoTask
  }

  function Find(monitors: seq<Monitor>, id: MonitorId): (r: Option<Monitor>)
    ensures r.Some? ==> r.value in monitors && r.value.id == id
    ensures r.None? ==> forall m :: m in monitors ==> m.id != id
  {
    if monitors == [] then None
    else if monitors[0].id == id then Some(monitors[0])
    else Find(monitors[1..], id)
  }

  predicate ExistsAndEnabled(monitors: seq<Monitor>, id: MonitorId) {
    Find(monitors, id).Some? && Find(monitors, id).value.enabled
  }

  lemma SweptPaused(
      calendar: Calendar, zone: string, now: Instant, monitors: seq<Monitor>, start: map<MonitorId, Entry>,
      tasks: map<MonitorId, Entry>, present: set<MonitorId>, due: seq<MonitorId>,
      before: map<MonitorId, string>, paused: map<MonitorId, string>, id: MonitorId)
    requires Distinct(monitors) && TasksUpTo(calendar, zone, now, monitors, |monitors|, start, tasks, present, due)
    requires PausedUpTo(monitors, |monitors|, before, paused)
    ensures id in paused && (id in present || ExistsAndEnabled(monitors, id)) <==> IsPaused(monitors, id)
  {
    FindUnique(monitors, id);
  }

  // ----- What a tick leaves -----

  /** The task is for these schedules, and its next instant is the first of them after now. */
  ghost predicate IsScheduled(calendar: Calendar, zone: string, entry: Entry, schedules: seq<string>, now: Instant) {
    && entry.Task? && Signature(entry.schedules) == Signature(schedules)
    && calendar(entry.schedules, zone).Some? && IsLeastAfter(calendar(entry.schedules, zone).value, now, entry.next)
  }

  /** The clock has not gone back behind the last computation. */
  ghost predicate BasedBy(entry: Entry, now: Instant) { entry.Task? ==> entry.base <= now }

  lemma TickSchedules(
      calendar: Calendar, entry: Entry, lastZone: string, zone: string, monitors: seq<Monitor>, m: Monitor, now: Instant)
    requires Sane(calendar) && Current(calendar, entry, lastZone) && BasedBy(entry, now)
    requires Distinct(monitors) && m in monitors && m.enabled && m.available && calendar(m.schedules, zone).Some?
    ensures IsScheduled(calendar, zone, AfterTick(calendar, entry, lastZone, Sight(now, zone, Find(monitors, m.id))).0, m.schedules, now)
  {
    FindUnique(monitors, m.id);
    var renewed := Renewed(calendar, if zone == lastZone then entry else NoTask, zone, m, now);
    assert HitsLeast(calendar(m.schedules, zone).value, now);
    if renewed.Task? && calendar(renewed.schedules, zone).Some? {
      assert HitsLeast(calendar(renewed.schedules, zone).value, renewed.base);
      assert HitsLeast(calendar(renewed.schedules, zone).value, now);
    }
  }

  /** While the new schedules of a monitor are invalid it is not due, and the task for the old ones waits. */
  lemma InvalidSchedulesWait(calendar: Calendar, entry: Entry, s: Sight)
    requires s.monitor.Some? && s.monitor.value.enabled && s.monitor.value.available
    requires calendar(s.monitor.value.schedules, s.zone).None?
    requires entry.Task? ==> Signature(entry.schedules) != Signature(s.monitor.value.schedules)
    ensures AfterTick(calendar, entry, s.zone, s) == (entry, false)
  {
  }

  lemma OnlyRunnableTicked(calendar: Calendar, entry: Entry, lastZone: string, s: Sight)
    requires AfterTick(calendar, entry, lastZone, s) != (NoTask, false)
    ensures s.monitor.Some? && s.monitor.value.enabled && s.monitor.value.available
  {
  }

  ghost predicate NoZero(schedules: seq<string>) {
    forall i :: 0 <= i < |schedules| ==> '\0' !in schedules[i]
  }

  /** Lists of schedules without zero characters, and there are no others, have different signatures. */
  lemma {:induction false} SignatureTells(a: seq<string>, b: seq<string>)
    requires a != [] && b != [] && NoZero(a) && NoZero(b) && Signature(a) == Signature(b)
    ensures a == b
  {
    SignatureStarts(a);
    SignatureStarts(b);
    var k, n := |a[0]|, |b[0]|;
    var sig := Signature(a);
    assert forall i :: 0 <= i < k ==> sig[i] == a[0][i] && sig[i] != '\0';
    assert forall i :: 0 <= i < n ==> sig[i] == b[0][i] && sig[i] != '\0';
    assert (k < |sig| ==> sig[k] == '\0') && (n < |sig| ==> sig[n] == '\0');
    assert k == n;
    assert a[0] == sig[..k] == b[0];
    assert |a| == 1 <==> |sig| == k;
    if |a| > 1 {
      assert sig[k + 1..] == Signature(a[1..]) == Signature(b[1..]);
      SignatureTells(a[1..], b[1..]);
      assert a == [a[0]] + a[1..] && b == [b[0]] + b[1..];
    } else {
      assert a == [a[0]] && b == [b[0]];
    }
  }

  lemma SignatureStarts(a: seq<string>)
    requires a != []
    ensures var sig := Signature(a);
      && |a[0]| <= |sig| && sig[..|a[0]|] == a[0]
      && if |a| == 1 then |sig| == |a[0]| else |sig| > |a[0]| && sig[|a[0]|] == '\0' && sig[|a[0]| + 1..] == Signature(a[1..])
  {
  }

  // ----- Runs of ticks, one monitor -----

  lemma TickKeepsCurrent(calendar: Calendar, entry: Entry, lastZone: string, s: Sight)
    requires Sane(calendar) && Current(calendar, entry, lastZone)
    ensures Current(calendar, AfterTick(calendar, entry, lastZone, s).0, s.zone)
  {
  }

  /** A monitor is due at a tick if and only if it can run, its task is still the one for its schedules
      and the zone, and an instant of those schedules lies after the base and not after the tick. */
  lemma DueIffInstantPassed(calendar: Calendar, entry: Entry, lastZone: string, s: Sight)
    requires Sane(calendar) && Current(calendar, entry, lastZone)
    ensures AfterTick(calendar, entry, lastZone, s).1 <==>
      && s.monitor.Some? && Runnable(s.monitor.value) && s.zone == lastZone
      && entry.Task? && Signature(entry.schedules) == Signature(s.monitor.value.schedules)
      && exists x :: Fires(calendar(entry.schedules, lastZone).value, x) && entry.base < x <= s.now
  {
    if s.monitor.Some? && Runnable(s.monitor.value) {
      var m := s.monitor.value;
      var old' := if s.zone == lastZone then entry else NoTask;
      if calendar(m.schedules, s.zone).Some? {
        assert HitsLeast(calendar(m.schedules, s.zone).value, s.now);
      }
      if old'.Task? {
        var next := calendar(entry.schedules, lastZone).value;
        assert HitsLeast(next, entry.base);
        assert entry.next <= s.now ==> Fires(next, entry.next);
      }
    }
  }

  /** A due tick uses up the instants after `from` and not after `to`. */
  datatype Span = Span(next: Instant -> Instant, from: Instant, to: Instant)

  ghost function Spans(calendar: Calendar, entry: Entry, lastZone: string, sights: seq<Sight>): seq<Span>
    requires Sane(calendar) && Current(calendar, entry, lastZone)
    decreases |sights|
  {
    if sights == [] then []
    else
      var (after, due) := AfterTick(calendar, entry, lastZone, sights[0]);
      TickKeepsCurrent(calendar, entry, lastZone, sights[0]);
      DueIffInstantPassed(calendar, entry, lastZone, sights[0]);
      (if due then [Span(calendar(entry.schedules, lastZone).value, entry.base, sights[0].now)] else [])
      + Spans(calendar, after, sights[0].zone, sights[1..])
  }

  ghost predicate Forward(sights: seq<Sight>, from: Instant) {
    (forall i :: 0 <= i < |sights| ==> from <= sights[i].now)
    && forall i, j :: 0 <= i < j < |sights| ==> sights[i].now <= sights[j].now
  }

  ghost predicate UsesInstant(span: Span) {
    exists x :: Fires(span.next, x) && span.from < x <= span.to
  }

  /** Each span uses up at least one instant, and everything a span uses up lies before what the next one does. */
  ghost predicate UsedOnce(spans: seq<Span>, from: Instant) {
    && (forall k :: 0 <= k < |spans| ==> UsesInstant(spans[k]) && from <= spans[k].from)
    && (forall j, k :: 0 <= j < k < |spans| ==> spans[j].to <= spans[k].from)
  }

  lemma UsedBefore(first: Span, rest: seq<Span>, from: Instant)
    requires UsesInstant(first) && from <= first.from && UsedOnce(rest, first.to)
    ensures UsedOnce([first] + rest, from)
  {
  }

  /** Over any run of ticks that do not go back in time, each due tick uses up at least one instant and
      none is used twice. */
  lemma {:induction false} InstantsUsedOnce(calendar: Calendar, entry: Entry, lastZone: string, sights: seq<Sight>, since: Instant)
    requires Sane(calendar) && Current(calendar, entry, lastZone) && Forward(sights, since)
    requires entry.Task? ==> entry.base <= since
    ensures UsedOnce(Spans(calendar, entry, lastZone, sights), if entry.Task? then entry.base else since)
    decreases |sights|
  {
    if sights != [] {
      var s := sights[0];
      var (after, due) := AfterTick(calendar, entry, lastZone, s);
      TickKeepsCurrent(calendar, entry, lastZone, s);
      DueIffInstantPassed(calendar, entry, lastZone, s);
      assert since <= s.now && (after.Task? && after != entry ==> after.base == s.now);
      assert Forward(sights[1..], s.now) by {
        assert forall i :: 0 <= i < |sights[1..]| ==> sights[1..][i] == sights[i + 1];
      }
      InstantsUsedOnce(calendar, after, s.zone, sights[1..], s.now);
      if due {
        UsedBefore(Span(calendar(entry.schedules, lastZone).value, entry.base, s.now),
          Spans(calendar, after, s.zone, sights[1..]), entry.base);
      }
    }
  }

  /** At each of the ticks the monitor can run, with the same schedules in the same zone. */
  ghost predicate Steady(sights: seq<Sight>, schedules: seq<string>, zone: string) {
    forall i :: 0 <= i < |sights| ==> SteadyAt(sights[i], schedules, zone)
  }

  ghost predicate SteadyAt(s: Sight, schedules: seq<string>, zone: string) {
    s.zone == zone && s.monitor.Some? && Runnable(s.monitor.value) && Signature(s.monitor.value.schedules) == Signature(schedules)
  }

  ghost predicate Within(x: Instant, span: Span) { span.from < x <= span.to }

  /** A tick of a steady monitor leaves no instant before its next base unused. */
  lemma SteadyTick(calendar: Calendar, entry: Entry, s: Sight)
    requires Sane(calendar) && entry.Task? && Current(calendar, entry, s.zone) && SteadyAt(s, entry.schedules, s.zone)
    ensures var (after, due) := AfterTick(calendar, entry, s.zone, s);
      && after.Task? && after.schedules == entry.schedules && after.base == (if due then s.now else entry.base)
      && (!due ==> forall x :: Fires(calendar(entry.schedules, s.zone).value, x) && entry.base < x ==> s.now < x)
  {
    DueIffInstantPassed(calendar, entry, s.zone, s);
  }

  /** Each instant between the base of a steady monitor's task and the last tick is used up by a due tick. */
  lemma {:induction false} SomeTickUses(calendar: Calendar, entry: Entry, zone: string, sights: seq<Sight>, x: Instant) returns (k: nat)
    requires Sane(calendar) && entry.Task? && Current(calendar, entry, zone)
    requires sights != [] && Steady(sights, entry.schedules, zone)
    requires Fires(calendar(entry.schedules, zone).value, x) && entry.base < x <= sights[|sights| - 1].now
    ensures var spans := Spans(calendar, entry, zone, sights); k < |spans| && Within(x, spans[k])
    decreases |sights|
  {
    hide Current, AfterTick;
    var s, spans := sights[0], Spans(calendar, entry, zone, sights);
    assert SteadyAt(s, entry.schedules, zone);
    var (after, due) := AfterTick(calendar, entry, zone, s);
    SteadyTick(calendar, entry, s);
    TickKeepsCurrent(calendar, entry, zone, s);
    if due && x <= s.now {
      return 0;
    }
    assert |sights| > 1;
    assert forall i :: 0 <= i < |sights[1..]| ==> sights[1..][i] == sights[i + 1];
    k := SomeTickUses(calendar, after, zone, sights[1..], x);
    if due {
      assert spans == [spans[0]] + Spans(calendar, after, zone, sights[1..]);
      k := k + 1;
    }
  }

  lemma AtMostOneUses(spans: seq<Span>, from: Instant, x: Instant, j: nat, k: nat)
    requires UsedOnce(spans, from) && j < |spans| && k < |spans| && Within(x, spans[j]) && Within(x, spans[k])
    ensures j == k
  {
  }

  /** While a monitor stays runnable with the same schedules and zone, no instant is lost: each one that
      lies between the base of its task and the last tick is used up by exactly one due tick. */
  lemma NoInstantLost(calendar: Calendar, entry: Entry, zone: string, sights: seq<Sight>, x: Instant)
    requires Sane(calendar) && entry.Task? && Current(calendar, entry, zone)
    requires sights != [] && Steady(sights, entry.schedules, zone) && Forward(sights, entry.base)
    requires Fires(calendar(entry.schedules, zone).value, x) && entry.base < x <= sights[|sights| - 1].now
    ensures var spans := Spans(calendar, entry, zone, sights);
      exists k :: 0 <= k < |spans| && Within(x, spans[k]) && forall j :: 0 <= j < |spans| && Within(x, spans[j]) ==> j == k
  {
    var spans := Spans(calendar, entry, zone, sights);
    InstantsUsedOnce(calendar, entry, zone, sights, entry.base);
    var k := SomeTickUses(calendar, entry, zone, sights, x);
    forall j | 0 <= j < |spans| && Within(x, spans[j])
      ensures j == k
    {
      AtMostOneUses(spans, entry.base, x, j, k);
    }
  }

  /** The first tick that sees the monitor: there was no task, or one of other schedules or another zone. */
  ghost predicate IsNew(entry: Entry, lastZone: string, s: Sight)
    requires s.monitor.Some?
  {
    entry.NoTask? || s.zone != lastZone || Signature(entry.schedules) != Signature(s.monitor.value.schedules)
  }

  /** From then on no instant is lost: each one after this tick and up to the last is used up by exactly
      one due tick. */
  lemma NoInstantLostFromStart(calendar: Calendar, entry: Entry, lastZone: string, sights: seq<Sight>, x: Instant)
    requires Sane(calendar) && Current(calendar, entry, lastZone)
    requires sights != [] && sights[0].monitor.Some? && IsNew(entry, lastZone, sights[0])
    requires var s := sights[0]; var m := s.monitor.value;
      && calendar(m.schedules, s.zone).Some? && Steady(sights, m.schedules, s.zone) && Forward(sights, s.now)
      && Fires(calendar(m.schedules, s.zone).value, x) && s.now < x <= sights[|sights| - 1].now
    ensures var spans := Spans(calendar, entry, lastZone, sights);
      exists k :: 0 <= k < |spans| && Within(x, spans[k]) && forall j :: 0 <= j < |spans| && Within(x, spans[j]) ==> j == k
  {
    var s, rest := sights[0], sights[1..];
    var m := s.monitor.value;
    var (after, due) := AfterTick(calendar, entry, lastZone, s);
    TickKeepsCurrent(calendar, entry, lastZone, s);
    assert SteadyAt(s, m.schedules, s.zone);
    assert HitsLeast(calendar(m.schedules, s.zone).value, s.now);
    assert after == Task(m.schedules, calendar(m.schedules, s.zone).value(s.now), s.now) && !due;
    assert forall i :: 0 <= i < |rest| ==> rest[i] == sights[i + 1];
    assert Spans(calendar, entry, lastZone, sights) == Spans(calendar, after, s.zone, rest);
    NoInstantLost(calendar, after, s.zone, rest, x);
  }

  // ----- Runs in progress -----

  class RunSlots {
    var activeRuns: int
    ghost var live: set<nat>
    ghost var largestLimit: int

    /** The counter counts the live runs and never passes the largest limit there has been. */
    ghost predicate Valid()
      reads this
    {
      activeRuns == |live| && (activeRuns == 0 || activeRuns <= largestLimit)
    }

    constructor ()
      ensures Valid() && live == {}
    {
      activeRuns, live, largestLimit := 0, {}, 0;
    }

    method Launch(limit: int, ghost run: nat) returns (started: bool)
      requires Valid() && run !in live
      modifies this
      ensures Valid() && started == (old(activeRuns) < limit)
      ensures live == if started then old(live) + {run} else old(live)
      ensures largestLimit == if limit > old(largestLimit) then limit else old(largestLimit)
    {
      largestLimit := if limit > largestLimit then limit else largestLimit;
      if activeRuns >= limit {
        return false;
      }
      activeRuns := activeRuns + 1;
      live := live + {run};
      return true;
    }

    method Finish(ghost run: nat)
      requires Valid() && run in live
      modifies this`activeRuns, this`live
      ensures Valid() && live == old(live) - {run}
    {
      activeRuns := activeRuns - 1;
      live := live - {run};
    }
  }
}
