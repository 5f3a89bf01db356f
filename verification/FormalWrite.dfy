/** Rollback of multi-file formal writes (lib/artifacts/formal_write.py). The file system maps the
    identity of a directory entry to what the entry is; links are entries, never followed. */
module FormalWrite {

  datatype Entry = File(content: string) | Link(target: string) | Absent

  type Entries = map<string, Entry>

  function At(entries: Entries, id: string): Entry {
    if id in entries then entries[id] else Absent
  }

  /** A recorded entry: `content` of a file, `target` of a link, neither for an absent entry. */
  datatype Snapshot = Snapshot(id: string, content: Option<string>, target: Option<string>)

  datatype Option<+T> = None | Some(value: T)

  /** How one restore step behaves when it has to touch the disk: it works, it raises before changing
      anything, or it raises after it removed the entry that stands in the way of a link. */
  datatype Fault = Works | RaisesFirst | RaisesAfterUnlink

  /** The recorded entry as an entry. */
  function Recorded(s: Snapshot): Entry {
    if s.target.Some? then Link(s.target.value)
    else if s.content.Some? then File(s.content.value)
    else Absent
  }

  /** One restore step on the current entry: the entry afterwards, and whether the step succeeded. */
  function RestoreStep(now: Entry, s: Snapshot, fault: Fault): (Entry, bool) {
    if s.target.Some? then
      if now == Link(s.target.value) then (now, true)
      else match fault {
        case Works => (Link(s.target.value), true)
        case RaisesFirst => (now, false)
        case RaisesAfterUnlink => (Absent, false)
      }
    else if s.content.None? then
      if now.Absent? then (now, true) else if fault.Works? then (Absent, true) else (now, false)
    else if fault.Works? then (File(s.content.value), true)
    else (now, false)
  }

  /** Outcome of a transaction: the body's success, its failure with a complete rollback, or its
      failure with an incomplete one. */
  datatype Outcome = Committed | RolledBack | RollbackIncomplete

  class FileSystem {
    var entries: Entries

    method SnapshotFile(id: string) returns (s: Snapshot)
      ensures s.id == id && Recorded(s) == At(entries, id)
    {
      var entry := At(entries, id);
      match entry
      case Link(target) => s := Snapshot(id, None, Some(target));
      case File(content) => s := Snapshot(id, Some(content), None);
      case Absent => s := Snapshot(id, None, None);
    }

    /** Attempts every step in reverse order and reports whether none raised. */
    method RestoreSnapshots(snapshots: seq<Snapshot>, faults: string -> Fault) returns (complete: bool)
      requires forall i, j | 0 <= i < j < |snapshots| :: snapshots[i].id != snapshots[j].id
      modifies this
      ensures forall s <- snapshots ::
        At(entries, s.id) == RestoreStep(At(old(entries), s.id), s, faults(s.id)).0
      ensures forall id | forall s <- snapshots :: s.id != id :: At(entries, id) == At(old(entries), id)
      ensures complete <==> forall s <- snapshots :: RestoreStep(At(old(entries), s.id), s, faults(s.id)).1
    {
      var errors := 0;
      var i := |snapshots|;
      while i > 0
        invariant 0 <= i <= |snapshots|
        invariant forall k | i <= k < |snapshots| :: var s := snapshots[k];
          At(entries, s.id) == RestoreStep(At(old(entries), s.id), s, faults(s.id)).0
        invariant forall id | forall k | i <= k < |snapshots| :: snapshots[k].id != id ::
          At(entries, id) == At(old(entries), id)
        invariant errors >= 0 && (errors == 0 <==>
          forall k | i <= k < |snapshots| ::
            RestoreStep(At(old(entries), snapshots[k].id), snapshots[k], faults(snapshots[k].id)).1)
      {
        i := i - 1;
        var s := snapshots[i];
        var ok := RestoreOne(s, faults(s.id));
        if !ok { errors := errors + 1; }
      }
      complete := errors == 0;
    }

    /** The three cases of one restore step. */
    method RestoreOne(s: Snapshot, fault: Fault) returns (ok: bool)
      modifies this
      ensures (At(entries, s.id), ok) == RestoreStep(At(old(entries), s.id), s, fault)
      ensures forall id | id != s.id :: At(entries, id) == At(old(entries), id)
    {
      var now := At(entries, s.id);
      if s.target.Some? {
        var same := now == Link(s.target.value);
        if !same {
          if fault.RaisesFirst? { return false; }
          if !now.Absent? { entries := entries[s.id := Absent]; }
          if fault.RaisesAfterUnlink? { return false; }
          entries := entries[s.id := Link(s.target.value)];
        }
      } else if s.content.None? {
        if !now.Absent? {
          if !fault.Works? { return false; }
          entries := entries[s.id := Absent];
        }
      } else {
        if !fault.Works? { return false; }
        entries := entries[s.id := File(s.content.value)];
      }
      ok := true;
    }

    /** Records every distinct listed entry once, in the order of first mention. */
    method SnapshotAll(paths: seq<string>, identity: string -> string) returns (snapshots: seq<Snapshot>)
      ensures Covers(snapshots, paths, identity)
      ensures forall s <- snapshots :: Recorded(s) == At(entries, s.id)
    {
      snapshots := [];
      var seen: set<string> := {};
      for n := 0 to |paths|
        invariant seen == set s <- snapshots :: s.id
        invariant Covers(snapshots, paths[..n], identity)
        invariant forall s <- snapshots :: Recorded(s) == At(entries, s.id)
      {
        var id := identity(paths[n]);
        assert paths[..n + 1] == paths[..n] + [paths[n]];
        if id !in seen {
          seen := seen + {id};
          var s := SnapshotFile(id);
          ExtendCover(snapshots, paths[..n], identity, s, paths[n]);
          snapshots := snapshots + [s];
        } else {
          var s :| s in snapshots && s.id == id;
          assert Listed(paths[..n], identity, s.id);
        }
      }
      assert paths[..|paths|] == paths;
    }

    /** A transaction over `paths`, identified by `identity` (parent resolved, last component kept).
        `body` is whatever the body does to the file system, `fails` whether it ends by raising. A failing
        body leaves every listed entry as it was unless its own restore step raises, whatever the other
        steps do; the rollback is reported incomplete exactly when one step raised; entries outside the
        list keep what the body made of them. */
    method Transaction(paths: seq<string>, identity: string -> string, body: Entries -> Entries, fails: bool,
                       faults: string -> Fault) returns (outcome: Outcome)
      modifies this
      ensures outcome.Committed? <==> !fails
      ensures !fails ==> entries == body(old(entries))
      ensures fails ==> forall id | Listed(paths, identity, id) ::
        Raises(At(body(old(entries)), id), At(old(entries), id), faults(id)) || At(entries, id) == At(old(entries), id)
      ensures fails ==> (outcome.RollbackIncomplete? <==> exists id ::
        Listed(paths, identity, id) && Raises(At(body(old(entries)), id), At(old(entries), id), faults(id)))
      ensures fails ==> forall id | !Listed(paths, identity, id) :: At(entries, id) == At(body(old(entries)), id)
    {
      ghost var before := entries;
      var snapshots := SnapshotAll(paths, identity);
      entries := body(entries);
      if !fails {
        return Committed;
      }
      ghost var after := entries;
      var complete := RestoreSnapshots(snapshots, faults);
      forall s | s in snapshots
        ensures RestoreStep(At(after, s.id), s, faults(s.id)).1 <==>
            !Raises(At(after, s.id), At(before, s.id), faults(s.id))
      {
        StepRaises(At(after, s.id), s, faults(s.id));
      }
      assert forall s <- snapshots :: Listed(paths, identity, s.id);
      forall id | Listed(paths, identity, id) ensures exists s <- snapshots :: s.id == id {
        var p :| p in paths && identity(p) == id;
      }
      outcome := if complete then RolledBack else RollbackIncomplete;
    }
  }

  ghost predicate Listed(paths: seq<string>, identity: string -> string, id: string) {
    exists p <- paths :: identity(p) == id
  }

  /** One record for each listed entry and no other. */
  ghost predicate Covers(snapshots: seq<Snapshot>, paths: seq<string>, identity: string -> string) {
    && (forall i, j | 0 <= i < j < |snapshots| :: snapshots[i].id != snapshots[j].id)
    && (forall p <- paths :: exists s <- snapshots :: s.id == identity(p))
    && (forall s <- snapshots :: Listed(paths, identity, s.id))
  }

  lemma ExtendCover(snapshots: seq<Snapshot>, paths: seq<string>, identity: string -> string, s: Snapshot, p: string)
    requires Covers(snapshots, paths, identity) && s.id == identity(p) && forall t <- snapshots :: t.id != s.id
    ensures Covers(snapshots + [s], paths + [p], identity)
  {
    var all := snapshots + [s];
    assert s in all && p in paths + [p];
    forall q | q in paths + [p] ensures exists t <- all :: t.id == identity(q) {
      if q in paths {
        var t :| t in snapshots && t.id == identity(q);
        assert t in all;
      }
    }
    forall t | t in all ensures Listed(paths + [p], identity, t.id) {
      if t in snapshots {
        var q :| q in paths && identity(q) == t.id;
        assert q in paths + [p];
      }
    }
  }

  /** The restore step of an entry that was `before` and is `now` raises: the step has to touch the disk
      and the disk fails. */
  predicate Raises(now: Entry, before: Entry, fault: Fault) {
    !fault.Works? && (before.File? || now != before)
  }

  lemma StepRaises(now: Entry, s: Snapshot, fault: Fault)
    ensures !RestoreStep(now, s, fault).1 <==> Raises(now, Recorded(s), fault)
    ensures RestoreStep(now, s, fault).1 ==> RestoreStep(now, s, fault).0 == Recorded(s)
    ensures !RestoreStep(now, s, fault).1 ==>
      RestoreStep(now, s, fault).0 ==
      if Recorded(s).Link? && fault.RaisesAfterUnlink? then Absent else now
  {
  }
}
