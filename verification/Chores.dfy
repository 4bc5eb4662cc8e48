/** A sync as a list of chores: what each leaves to do, and what its requests are about. */
module Chores {
  import opened Items
  import opened Posts

  datatype Chore =
    | SeeVehicle(v: VehicleView)
    | TellAlert(alert: AlertView)
    | TellCommand(command: CommandView)
    | SeeOperator(o: View)
    | TellMarker(marker: View)
    | TellMessage(message: View)

  function VehicleChores(views: seq<VehicleView>): (chores: seq<Chore>)
    ensures |chores| == |views| && forall i :: 0 <= i < |views| ==> chores[i] == SeeVehicle(views[i])
  {
    seq(|views|, i requires 0 <= i < |views| => SeeVehicle(views[i]))
  }

  function AlertChores(views: seq<AlertView>): (chores: seq<Chore>)
    ensures |chores| == |views| && forall i :: 0 <= i < |views| ==> chores[i] == TellAlert(views[i])
  {
    seq(|views|, i requires 0 <= i < |views| => TellAlert(views[i]))
  }

  function CommandChores(views: seq<CommandView>): (chores: seq<Chore>)
    ensures |chores| == |views| && forall i :: 0 <= i < |views| ==> chores[i] == TellCommand(views[i])
  {
    seq(|views|, i requires 0 <= i < |views| => TellCommand(views[i]))
  }

  function OperatorChores(views: seq<View>): (chores: seq<Chore>)
    ensures |chores| == |views| && forall i :: 0 <= i < |views| ==> chores[i] == SeeOperator(views[i])
  {
    seq(|views|, i requires 0 <= i < |views| => SeeOperator(views[i]))
  }

  function MarkerChores(views: seq<View>): (chores: seq<Chore>)
    ensures |chores| == |views| && forall i :: 0 <= i < |views| ==> chores[i] == TellMarker(views[i])
  {
    seq(|views|, i requires 0 <= i < |views| => TellMarker(views[i]))
  }

  function MessageChores(views: seq<View>): (chores: seq<Chore>)
    ensures |chores| == |views| && forall i :: 0 <= i < |views| ==> chores[i] == TellMessage(views[i])
  {
    seq(|views|, i requires 0 <= i < |views| => TellMessage(views[i]))
  }

  /** The chores of a snapshot, in the order of a sync. */
  function ChoresOf(s: Snapshot): seq<Chore> {
    VehicleChores(s.vehicles) + AlertChores(s.alerts) + CommandChores(s.commands)
    + OperatorChores(s.operators) + MarkerChores(s.markers) + MessageChores(s.messages)
  }

  /** The chore leaves nothing to post. */
  predicate Quiet(chore: Chore, s: Snapshot, c: Caches, interval: int) {
    match chore
    case SeeVehicle(v) => VehicleSettled(c, v, interval)
    case TellAlert(a) => AlertSettled(c, ByEntity(s.vehicles), a)
    case TellCommand(command) => CommandSettled(c, ByEntity(s.vehicles), command)
    case SeeOperator(o) => OperatorSettled(c, o, interval)
    case TellMarker(m) => m.entity in c.markersPosted
    case TellMessage(m) => m.entity in c.messagesPosted
  }

  predicate About(chore: Chore, s: Snapshot, p: Post) {
    match chore
    case SeeVehicle(v) => AboutVehicle(v, p)
    case TellAlert(a) => AboutAlert(ByEntity(s.vehicles), a, p)
    case TellCommand(command) => AboutCommand(ByEntity(s.vehicles), command, p)
    case SeeOperator(o) => AboutOperator(o, p)
    case TellMarker(m) => AboutMarker(m, p)
    case TellMessage(m) => AboutMessage(SenderOf(s.operators, m), m, p)
  }

  /** The snapshot has been fully posted. */
  ghost predicate Settled(s: Snapshot, c: Caches, interval: int) {
    forall chore :: chore in ChoresOf(s) ==> Quiet(chore, s, c, interval)
  }

  ghost predicate Covered(chores: seq<Chore>, s: Snapshot, p: Post) {
    exists chore :: chore in chores && About(chore, s, p)
  }

  /** The request is about something in the snapshot. */
  ghost predicate Describes(s: Snapshot, p: Post) {
    Covered(ChoresOf(s), s, p)
  }

  lemma QuietStays(chore: Chore, s: Snapshot, c: Caches, d: Caches, interval: int)
    requires Grown(c, d) && Quiet(chore, s, c, interval)
    ensures Quiet(chore, s, d, interval)
  {
    hide Grown, VehicleSettled, OperatorSettled, ByEntity;
    PostedStays(c, d);
    match chore
    case SeeVehicle(v) => VehicleStays(c, d, v, interval);
    case SeeOperator(o) => OperatorStays(c, d, o, interval);
    case _ =>
  }

  /** Some chores were done in full, or up to the first failure. */
  ghost predicate Worked(s: Snapshot, interval: int, chores: seq<Chore>, log0: seq<Attempt>, c0: Caches,
                         log: seq<Attempt>, c: Caches, ok: bool)
  {
    && Stepped(log0, c0, log, c, ok)
    && (ok ==> forall chore :: chore in chores ==> Quiet(chore, s, c, interval))
    && ((forall chore :: chore in chores ==> Quiet(chore, s, c0, interval)) ==> |log| == |log0|)
    && (forall i :: |log0| <= i < |log| ==> Covered(chores, s, log[i].post))
  }

  lemma OneChore(s: Snapshot, interval: int, chore: Chore, log0: seq<Attempt>, c0: Caches,
                 log: seq<Attempt>, c: Caches, ok: bool)
    requires Stepped(log0, c0, log, c, ok)
    requires ok ==> Quiet(chore, s, c, interval)
    requires Quiet(chore, s, c0, interval) ==> |log| == |log0|
    requires forall i :: |log0| <= i < |log| ==> About(chore, s, log[i].post)
    ensures Worked(s, interval, [chore], log0, c0, log, c, ok)
  {
  }

  lemma NoChore(s: Snapshot, interval: int, log: seq<Attempt>, c: Caches)
    ensures Worked(s, interval, [], log, c, log, c, true)
  {
  }

  lemma WorkedOn(s: Snapshot, interval: int, done: seq<Chore>, more: seq<Chore>, log0: seq<Attempt>, c0: Caches,
                 log1: seq<Attempt>, c1: Caches, log: seq<Attempt>, c: Caches, ok: bool)
    requires Worked(s, interval, done, log0, c0, log1, c1, true)
    requires Worked(s, interval, more, log1, c1, log, c, ok)
    ensures Worked(s, interval, done + more, log0, c0, log, c, ok)
  {
    hide Quiet, About, Grown, Attempt.Fine;
    StepsChain(log0, c0, log1, c1, log, c, ok);
    if ok {
      forall chore | chore in done ensures Quiet(chore, s, c, interval) {
        QuietStays(chore, s, c1, c, interval);
      }
    }
    AboutMore(s, done, more, log0, log1, log);
    if forall chore :: chore in done + more ==> Quiet(chore, s, c0, interval) {
      assert forall chore :: chore in done ==> Quiet(chore, s, c0, interval) by {
        forall chore | chore in done ensures Quiet(chore, s, c0, interval) { assert chore in done + more; }
      }
      assert forall chore :: chore in more ==> Quiet(chore, s, c1, interval) by {
        forall chore | chore in more ensures Quiet(chore, s, c1, interval) { assert chore in done + more; }
      }
    }
  }

  lemma AboutMore(s: Snapshot, done: seq<Chore>, more: seq<Chore>,
                  log0: seq<Attempt>, log1: seq<Attempt>, log: seq<Attempt>)
    requires log0 <= log1 <= log
    requires forall i :: |log0| <= i < |log1| ==> Covered(done, s, log1[i].post)
    requires forall i :: |log1| <= i < |log| ==> Covered(more, s, log[i].post)
    ensures forall i :: |log0| <= i < |log| ==> Covered(done + more, s, log[i].post)
  {
  }

  /** A failure among some chores is a failure of any longer list. */
  lemma GaveUp(s: Snapshot, interval: int, some: seq<Chore>, all: seq<Chore>, log0: seq<Attempt>, c0: Caches,
               log: seq<Attempt>, c: Caches)
    requires Worked(s, interval, some, log0, c0, log, c, false) && some <= all
    ensures Worked(s, interval, all, log0, c0, log, c, false)
  {
  }

  lemma NextChore(s: Snapshot, interval: int, all: seq<Chore>, k: nat,
                  log0: seq<Attempt>, c0: Caches, log1: seq<Attempt>, c1: Caches,
                  log: seq<Attempt>, c: Caches, ok: bool)
    requires k < |all| && Worked(s, interval, all[..k], log0, c0, log1, c1, true)
    requires Stepped(log1, c1, log, c, ok)
    requires ok ==> Quiet(all[k], s, c, interval)
    requires Quiet(all[k], s, c1, interval) ==> |log| == |log1|
    requires forall i :: |log1| <= i < |log| ==> About(all[k], s, log[i].post)
    ensures Worked(s, interval, if ok then all[..k + 1] else all, log0, c0, log, c, ok)
  {
    hide Quiet, About, Stepped, Worked;
    OneChore(s, interval, all[k], log1, c1, log, c, ok);
    WorkedOn(s, interval, all[..k], [all[k]], log0, c0, log1, c1, log, c, ok);
    assert all[..k + 1] == all[..k] + [all[k]];
    if !ok { GaveUp(s, interval, all[..k + 1], all, log0, c0, log, c); }
  }

  /** A sync leaves its snapshot posted or fails; it posts nothing exactly when the
      snapshot was posted before. */
  lemma WorkedExact(s: Snapshot, interval: int, log0: seq<Attempt>, c0: Caches,
                    log: seq<Attempt>, c: Caches, ok: bool)
    requires Worked(s, interval, ChoresOf(s), log0, c0, log, c, ok)
    ensures Stepped(log0, c0, log, c, ok)
    ensures ok ==> Settled(s, c, interval)
    ensures |log| == |log0| <==> Settled(s, c0, interval)
    ensures forall i :: |log0| <= i < |log| ==> Describes(s, log[i].post)
  {
  }

  /** The stretches of a sync are the first chores of its snapshot. */
  lemma Stages(s: Snapshot)
    ensures var v, a, c, o, m := VehicleChores(s.vehicles), AlertChores(s.alerts), CommandChores(s.commands),
                                 OperatorChores(s.operators), MarkerChores(s.markers);
            && v <= ChoresOf(s) && v + a <= ChoresOf(s) && v + a + c <= ChoresOf(s)
            && v + a + c + o <= ChoresOf(s) && v + a + c + o + m <= ChoresOf(s)
  {
  }

  /** One stretch more, up to the end of the sync if it failed. */
  lemma NextStretch(s: Snapshot, interval: int, done: seq<Chore>, more: seq<Chore>,
                    log0: seq<Attempt>, c0: Caches, log1: seq<Attempt>, c1: Caches,
                    log: seq<Attempt>, c: Caches, ok: bool)
    requires Worked(s, interval, done, log0, c0, log1, c1, true)
    requires Worked(s, interval, more, log1, c1, log, c, ok)
    requires done + more <= ChoresOf(s)
    ensures Worked(s, interval, if ok then done + more else ChoresOf(s), log0, c0, log, c, ok)
  {
    hide Worked, ChoresOf;
    WorkedOn(s, interval, done, more, log0, c0, log1, c1, log, c, ok);
    if !ok { GaveUp(s, interval, done + more, ChoresOf(s), log0, c0, log, c); }
  }
}
