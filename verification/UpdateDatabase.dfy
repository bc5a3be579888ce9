/** restoreDatabase (apps/root-worker/update_rollback.go) over the primitives of
    apps/root-worker/update_fd.go, one system call at a time: any call may fail,
    and the process may die after any of them. */
module UpdateDatabase {
  import opened Text

  datatype File = File(content: seq<int>, mode: nat)

  /** The database and the journals beside it, by what follows its base name. */
  datatype Ext = Db | Wal | Shm | Journal

  /** base+ext, base+ext.hsi-tmp, base+ext.hsi-old, and unrelated entries. */
  datatype Name = Live(ext: Ext) | Staged(ext: Ext) | Aside(ext: Ext) | Other(name: string)

  type Entries = map<Name, File>

  function Get(e: Entries, n: Name): Option<File> {
    if n in e then Some(e[n]) else None
  }

  /** The copy a snapshot holds: its database and, perhaps, its WAL. */
  datatype Snapshot = Snapshot(db: Option<File>, wal: Option<File>)

  /** The database and the three journals are those of e. */
  ghost predicate SameLive(e: Entries, e': Entries) {
    forall x: Ext :: Get(e', Live(x)) == Get(e, Live(x))
  }

  ghost predicate SameJournals(e: Entries, e': Entries) {
    forall x: Ext :: x != Db ==> Get(e', Live(x)) == Get(e, Live(x))
  }

  ghost predicate SameOthers(e: Entries, e': Entries) {
    forall n: string :: Get(e', Other(n)) == Get(e, Other(n))
  }

  /** Either the database is still the one rolled back from, or it is the
      snapshot's and nothing but the snapshot's WAL is beside it. */
  ghost predicate NeverMixed(before: Entries, snap: Snapshot, e: Entries) {
    || Get(e, Live(Db)) == Get(before, Live(Db))
    || (Get(e, Live(Db)) == snap.db && NoJournals(e, snap))
  }

  ghost predicate NoJournals(e: Entries, snap: Snapshot) {
    && Live(Shm) !in e && Live(Journal) !in e
    && (Live(Wal) in e ==> Get(e, Live(Wal)) == snap.wal)
  }

  /** What was set aside or staged is gone again, but for these. */
  ghost predicate NoMore(e: Entries, e': Entries, aside: seq<Ext>, staged: set<Ext>) {
    && (forall x: Ext :: Aside(x) in e' ==> Aside(x) in e || x in aside)
    && (forall x: Ext :: Staged(x) in e' ==> Staged(x) in e || x in staged)
  }

  ghost function BothStaged(wal: bool): set<Ext> { if wal then {Db, Wal} else {Db} }

  /** Calls that failed; a copy fails when its source cannot be read or it cannot be written. */
  datatype Fault =
    | RenameFault(a: Name, b: Name)
    | RemoveFault(n: Name)
    | StatFault(n: Name)
    | CopyFault(ext: Ext)
    | SyncFault(ext: Ext)
    | SnapshotStatFault

  /** A folder held by descriptor; history is every state it has been in, and
      faults the calls that have failed, in order. */
  class Folder {
    var entries: Entries
    ghost var history: seq<Entries>
    ghost var faults: seq<Fault>

    constructor (entries: Entries)
      ensures this.entries == entries && history == [entries] && faults == []
    {
      this.entries, history, faults := entries, [entries], [];
    }

    /** removeAt: a missing entry is fine. */
    method RemoveAt(n: Name) returns (ok: bool)
      modifies this
      ensures entries == if ok then old(entries) - {n} else old(entries)
      ensures history == old(history) + [entries]
      ensures faults == if ok then old(faults) else old(faults) + [RemoveFault(n)]
    {
      ok := *;
      if ok { entries := entries - {n}; } else { faults := faults + [RemoveFault(n)]; }
      history := history + [entries];
    }

    /** renameat: without effect when it fails. */
    method RenameAt(a: Name, b: Name) returns (ok: bool)
      requires a != b
      modifies this
      ensures ok ==> a in old(entries)
      ensures entries == if ok then (old(entries) - {a})[b := old(entries)[a]] else old(entries)
      ensures history == old(history) + [entries]
      ensures faults == if ok then old(faults) else old(faults) + [RenameFault(a, b)]
    {
      ok := *;
      if ok && a in entries { entries := (entries - {a})[b := entries[a]]; } else {
        ok, faults := false, faults + [RenameFault(a, b)];
      }
      history := history + [entries];
    }

    /** statAt: seen, missing, or an error that tells neither. */
    method StatAt(n: Name) returns (missing: bool)
      modifies this`faults
      ensures missing ==> n !in entries && faults == old(faults)
      ensures !missing ==> (n in entries && faults == old(faults)) || faults == old(faults) + [StatFault(n)]
    {
      var fault: bool := *;
      missing := n !in entries && !fault;
      if fault { faults := faults + [StatFault(n)]; }
    }

    /** stageAt of a regular file: copied under the .hsi-tmp name, and removed again
        (if that works) when the copy fails. Only that name is touched. */
    method StageAt(src: Option<File>, ext: Ext) returns (ok: bool)
      modifies this
      ensures ok ==> src.Some? && entries == old(entries)[Staged(ext) := src.value]
      ensures forall n :: n != Staged(ext) ==> Get(entries, n) == Get(old(entries), n)
      ensures old(history) <= history && Failures(old(faults)) && (ok ==> faults == old(faults))
      ensures !ok ==> src == None || |faults| > |old(faults)|
      ensures ok || Hindered(|old(faults)|) || NoMore(old(entries), entries, [], {})
      ensures forall k :: |old(history)| <= k < |history| ==>
        forall n :: n != Staged(ext) ==> Get(history[k], n) == Get(old(entries), n)
    {
      var read, copied: bool, partial: File := *, *, *;
      if src == None || !read {
        faults := faults + [CopyFault(ext)];
        return false;
      }
      ok := RemoveAt(Staged(ext));
      if !ok {
        assert faults[|faults| - 1] == RemoveFault(Staged(ext));
        return false;
      }
      entries := entries[Staged(ext) := partial];
      history := history + [entries];
      if !copied {
        faults := faults + [CopyFault(ext)];
        var removed := RemoveAt(Staged(ext));
        if !removed { assert faults[|faults| - 1] == RemoveFault(Staged(ext)); }
        return false;
      }
      entries := entries[Staged(ext) := src.value];
      history := history + [entries];
    }

    /** commitAt: it also fails when the sync after its rename does. */
    method CommitAt(ext: Ext) returns (ok: bool, ghost placed: bool)
      modifies this
      ensures ok ==> placed
      ensures placed ==> Staged(ext) in old(entries) && history == old(history) + [entries]
      ensures placed ==> entries == (old(entries) - {Staged(ext)})[Live(ext) := old(entries)[Staged(ext)]]
      ensures !placed ==> forall n :: n != Staged(ext) ==> Get(entries, n) == Get(old(entries), n)
      ensures !placed ==> history == old(history) + [old(entries), entries]
      ensures ok ==> faults == old(faults)
      ensures placed && !ok ==> faults == old(faults) + [SyncFault(ext)]
      ensures !placed ==> Failures(old(faults)) && |faults| > |old(faults)| && Hindered(|old(faults)|)
    {
      ok := RenameAt(Staged(ext), Live(ext));
      placed := ok;
      if !ok {
        var _ := RemoveAt(Staged(ext));
        assert faults[|old(faults)|].RenameFault?;
        return;
      }
      ok := *;
      if !ok { faults := faults + [SyncFault(ext)]; }
    }

    // ── restoreDatabase ───────────────────────────────────────────────────────

    /** Every state since n0 has the database rolled back from in place. */
    ghost predicate DbUntouched(n0: nat, before: Entries)
      reads this
    {
      && n0 <= |history| && Get(entries, Live(Db)) == Get(before, Live(Db))
      && forall k :: n0 <= k < |history| ==> Get(history[k], Live(Db)) == Get(before, Live(Db))
    }

    ghost predicate AllSafe(n0: nat, before: Entries, snap: Snapshot)
      reads this
    {
      n0 <= |history| && forall k :: n0 <= k < |history| ==> NeverMixed(before, snap, history[k])
    }

    /** Some put-back rename has failed since the first f0 faults. */
    ghost predicate PutBackFailed(f0: nat)
      reads this
    {
      exists k, x: Ext :: f0 <= k < |faults| && faults[k] == RenameFault(Aside(x), Live(x))
    }

    /** Calls may have failed since, but no sync of the database and no stat of the
        snapshot's WAL. */
    ghost predicate Failures(was: seq<Fault>)
      reads this
    {
      && was <= faults
      && forall k :: |was| <= k < |faults| ==> faults[k] != SyncFault(Db) && faults[k] != SnapshotStatFault
    }

    /** The sync after the rename of the database has failed since then. */
    ghost predicate SyncFailed(f0: nat)
      reads this
    {
      exists k :: f0 <= k < |faults| && faults[k] == SyncFault(Db)
    }

    /** So has the stat of the snapshot's WAL. */
    ghost predicate StatFailed(f0: nat)
      reads this
    {
      exists k :: f0 <= k < |faults| && faults[k] == SnapshotStatFault
    }

    /** A removal or a rename has failed since then. */
    ghost predicate Hindered(f0: nat)
      reads this
    {
      exists k :: f0 <= k < |faults| && (faults[k].RemoveFault? || faults[k].RenameFault?)
    }

    lemma {:induction false} StillHindered(f0: nat, was: seq<Fault>)
      requires was <= faults && exists k :: f0 <= k < |was| && (was[k].RemoveFault? || was[k].RenameFault?)
      ensures Hindered(f0)
    {
      var k :| f0 <= k < |was| && (was[k].RemoveFault? || was[k].RenameFault?);
      assert faults[k] == was[k];
    }

    ghost predicate SameStaged(e: Entries)
      reads this
    {
      forall x: Ext :: Get(entries, Staged(x)) == Get(e, Staged(x))
    }

    /** Renames back what was set aside; failures are ignored. */
    method PutBack(aside: seq<Ext>, ghost before: Entries)
      requires JournalsAside(before, entries, aside)
      modifies this
      ensures SameJournals(before, entries) || PutBackFailed(|old(faults)|)
      ensures DbUntouched(|old(history)|, old(entries)) && old(history) <= history && Failures(old(faults))
      ensures SameOthers(old(entries), entries) && SameStaged(old(entries))
      ensures Hindered(|old(faults)|) || NoMore(old(entries), entries, [], {})
      ensures Hindered(|old(faults)|) || forall x :: x in aside ==> Aside(x) !in entries
    {
      hide JournalsAside;
      assert aside[0..] == aside;
      PutBackNone(before, entries, aside);
      for k := 0 to |aside|
        invariant JournalsAside(before, entries, aside[k..]) || PutBackFailed(|old(faults)|)
        invariant DbUntouched(|old(history)|, old(entries)) && old(history) <= history && Failures(old(faults))
        invariant forall j :: 0 <= j < |aside| ==> aside[j] != Db
        invariant Hindered(|old(faults)|) || NoMore(old(entries), entries, [], {})
        invariant Hindered(|old(faults)|) || forall j :: 0 <= j < k ==> Aside(aside[j]) !in entries
        invariant SameOthers(old(entries), entries) && SameStaged(old(entries))
      {
        assert aside[k..] == [aside[k]] + aside[k + 1..];
        if JournalsAside(before, entries, aside[k..]) { PutBackStep(before, entries, aside[k], aside[k + 1..]); }
        var renamed := RenameAt(Aside(aside[k]), Live(aside[k]));
        if !renamed { assert faults[|faults| - 1] == RenameFault(Aside(aside[k]), Live(aside[k])); }
      }
      if JournalsAside(before, entries, aside[|aside|..]) { PutBackNone(before, entries, aside[|aside|..]); }
    }

    /** Renames a live journal aside, where nothing is in the way. */
    method MoveAside(ext: Ext, ghost aside: seq<Ext>, ghost n0: nat, ghost before: Entries) returns (ok: bool)
      requires ext != Db && ext !in aside
      requires SetAside(before, entries, aside) && DbUntouched(n0, before)
      modifies this
      ensures SetAside(before, entries, if ok then aside + [ext] else aside)
      ensures ok ==> Live(ext) !in entries
      ensures forall x: Ext :: Live(x) !in old(entries) ==> Live(x) !in entries
      ensures !ok ==> |faults| > |old(faults)| && Hindered(|old(faults)|)
      ensures DbUntouched(n0, before) && Failures(old(faults))
      ensures SameOthers(old(entries), entries) && SameStaged(old(entries))
      ensures forall x: Ext :: Aside(x) in entries ==> Aside(x) in old(entries) || (ok && x == ext)
    {
      hide SetAside;
      SetAsideKeepsDb(before, entries, aside);
      SetAsideMore(before, entries, aside, ext);
      ok := RenameAt(Live(ext), Aside(ext));
      if !ok { assert faults[|faults| - 1].RenameFault?; }
    }

    /** Renames one live journal aside; a missing one is passed over. */
    method SetOneAside(ext: Ext, aside: seq<Ext>, ghost n0: nat, ghost before: Entries)
        returns (aside': seq<Ext>, ok: bool)
      requires ext != Db && ext !in aside
      requires SetAside(before, entries, aside) && DbUntouched(n0, before)
      modifies this
      ensures SetAside(before, entries, aside') && (aside' == aside || aside' == aside + [ext])
      ensures ok ==> Live(ext) !in entries
      ensures forall x: Ext :: Live(x) !in old(entries) ==> Live(x) !in entries
      ensures !ok ==> |faults| > |old(faults)| && Hindered(|old(faults)|)
      ensures DbUntouched(n0, before) && Failures(old(faults))
      ensures SameOthers(old(entries), entries) && SameStaged(old(entries))
      ensures forall x: Ext :: Aside(x) in entries ==> Aside(x) in old(entries) || x in aside'
    {
      hide SetAside;
      SetAsideDrop(before, entries, aside, ext);
      SetAsideKeepsDb(before, entries, aside);
      var missing := StatAt(Live(ext));
      if missing {
        return aside, true;
      }
      var cleared := RemoveAt(Aside(ext));
      if !cleared {
        assert faults[|faults| - 1].RemoveFault?;
        return aside, false;
      }
      ok := MoveAside(ext, aside, n0, before);
      aside' := if ok then aside + [ext] else aside;
    }

    /** Renames the live journals aside, until one cannot be. */
    method SetJournalsAside(ghost n0: nat, ghost before: Entries) returns (aside: seq<Ext>, ok: bool)
      requires SameLive(before, entries) && DbUntouched(n0, before)
      modifies this
      ensures SetAside(before, entries, aside)
      ensures ok ==> Live(Wal) !in entries && Live(Shm) !in entries && Live(Journal) !in entries
      ensures !ok ==> |faults| > |old(faults)| && Hindered(|old(faults)|)
      ensures DbUntouched(n0, before) && Failures(old(faults))
      ensures SameOthers(old(entries), entries) && SameStaged(old(entries))
      ensures forall x: Ext :: Aside(x) in entries ==> Aside(x) in old(entries) || x in aside
    {
      hide SetAside;
      SetAsideNone(before, entries);
      var exts := [Wal, Shm, Journal];
      aside := [];
      for k := 0 to |exts|
        invariant SetAside(before, entries, aside)
        invariant forall j :: k <= j < |exts| ==> exts[j] !in aside
        invariant forall j :: 0 <= j < k ==> Live(exts[j]) !in entries
        invariant DbUntouched(n0, before) && Failures(old(faults))
        invariant forall x: Ext :: Aside(x) in entries ==> Aside(x) in old(entries) || x in aside
        invariant SameOthers(old(entries), entries) && SameStaged(old(entries))
      {
        aside, ok := SetOneAside(exts[k], aside, n0, before);
        if !ok {
          return aside, false;
        }
      }
      assert Live(exts[0]) !in entries && Live(exts[1]) !in entries && Live(exts[2]) !in entries;
      return aside, true;
    }

    /** Removes the journals set aside once the database is in place. */
    method RemoveAside(aside: seq<Ext>, ghost n0: nat, ghost before: Entries, ghost snap: Snapshot)
      requires AllSafe(n0, before, snap) && NeverMixed(before, snap, entries)
      modifies this
      ensures AllSafe(n0, before, snap) && Failures(old(faults))
      ensures SameLive(old(entries), entries) && SameOthers(old(entries), entries) && SameStaged(old(entries))
      ensures Hindered(|old(faults)|) || forall x: Ext :: Aside(x) in entries <==>
        Aside(x) in old(entries) && x !in aside
    {
      for k := 0 to |aside|
        invariant AllSafe(n0, before, snap) && Failures(old(faults))
        invariant SameLive(old(entries), entries) && SameOthers(old(entries), entries) && SameStaged(old(entries))
        invariant Hindered(|old(faults)|)
          || forall x: Ext :: Aside(x) in entries <==> Aside(x) in old(entries) && x !in aside[..k]
      {
        assert aside[..k + 1] == aside[..k] + [aside[k]];
        var removed := RemoveAt(Aside(aside[k]));
        if !removed { assert faults[|faults| - 1].RemoveFault?; }
        SameLiveSafe(before, snap, old(entries), entries);
      }
      assert aside[..|aside|] == aside;
    }

    method DropStaged(wal: bool)
      modifies this
      ensures DbUntouched(|old(history)|, old(entries)) && old(history) <= history && Failures(old(faults))
      ensures SameLive(old(entries), entries) && SameOthers(old(entries), entries)
      ensures NoMore(old(entries), entries, [], {})
      ensures Hindered(|old(faults)|) || forall x :: x in BothStaged(wal) ==> Staged(x) !in entries
    {
      var removed := RemoveAt(Staged(Db));
      if !removed { assert faults[|faults| - 1].RemoveFault?; }
      if wal {
        removed := RemoveAt(Staged(Wal));
        if !removed { assert faults[|faults| - 1].RemoveFault?; }
      }
    }

    /** Stages the snapshot's database and, when its stat sees one, its WAL. */
    method StageBoth(snap: Snapshot) returns (ok: bool, wal: bool)
      modifies this
      ensures old(faults) <= faults && (!ok ==> snap.db.None? || |faults| > |old(faults)|)
      ensures SameLive(old(entries), entries) && SameOthers(old(entries), entries)
      ensures DbUntouched(|old(history)|, old(entries))
      ensures ok ==> snap.db.Some? && Get(entries, Staged(Db)) == snap.db
      ensures ok && wal ==> snap.wal.Some? && Get(entries, Staged(Wal)) == snap.wal
      ensures ok ==> NoMore(old(entries), entries, [], BothStaged(wal))
      ensures ok || Hindered(|old(faults)|) || NoMore(old(entries), entries, [], {})
      ensures ok && !wal ==> snap.wal == None || StatFailed(|old(faults)|)
      ensures !SyncFailed(|old(faults)|)
    {
      wal := false;
      ok := StageAt(snap.db, Db);
      if !ok {
        return;
      }
      var seen: bool := *;
      if !seen && snap.wal.Some? {
        faults := faults + [SnapshotStatFault];
        assert faults[|faults| - 1] == SnapshotStatFault;
      }
      wal := seen && snap.wal.Some?;
      if wal {
        ok := StageAt(snap.wal, Wal);
        if !ok {
          var removed := RemoveAt(Staged(Db));
          if !removed { assert faults[|faults| - 1].RemoveFault?; }
        }
      }
    }

    /** Puts the journals back and drops what was staged; the database stays as it is. */
    method GiveUp(aside: seq<Ext>, wal: bool, ghost before: Entries)
      requires JournalsAside(before, entries, aside) && NoMore(before, entries, aside, BothStaged(wal))
      modifies this
      ensures SameJournals(before, entries) || PutBackFailed(|old(faults)|)
      ensures DbUntouched(|old(history)|, old(entries)) && old(history) <= history && Failures(old(faults))
      ensures SameOthers(old(entries), entries)
      ensures Hindered(|old(faults)|) || NoMore(before, entries, [], {})
    {
      PutBack(aside, before);
      ghost var e := entries;
      DropStaged(wal);
      if SameJournals(before, e) { assert SameJournals(before, entries); }
    }

    /** Renames the staged database into place, or gives up. */
    method PlaceDatabase(aside: seq<Ext>, wal: bool, snap: Snapshot, ghost n0: nat, ghost before: Entries)
        returns (ok: bool, ghost placed: bool)
      requires SetAside(before, entries, aside) && DbUntouched(n0, before)
      requires NoMore(before, entries, aside, BothStaged(wal))
      requires snap.db.Some? && Get(entries, Staged(Db)) == snap.db
      modifies this
      ensures old(faults) <= faults && SameOthers(old(entries), entries)
      ensures !ok ==> |faults| > |old(faults)|
      ensures ok ==> placed && faults == old(faults) && history == old(history) + [entries]
      ensures ok ==> entries == (old(entries) - {Staged(Db)})[Live(Db) := snap.db.value]
      ensures placed ==> Get(entries, Live(Db)) == snap.db
      ensures !placed ==> DbUntouched(n0, before) && !SyncFailed(|old(faults)|)
      ensures !placed ==> SameLive(before, entries) || PutBackFailed(|old(faults)|)
      ensures !ok && placed ==> SyncFailed(|old(faults)|)
      ensures !ok && placed ==> SameJournals(before, entries) || PutBackFailed(|old(faults)|)
      ensures ok || Hindered(|old(faults)|) || NoMore(before, entries, [], {})
    {
      hide SetAside, SameLive, SameJournals, JournalsAside;
      ghost var e := entries;
      ok, placed := CommitAt(Db);
      if !ok {
        if placed {
          assert faults[|faults| - 1] == SyncFault(Db);
          SetAsidePlaced(before, e, entries, aside);
          NoMorePlaced(before, e, entries, aside, BothStaged(wal), Db);
        } else {
          SetAsideFrame(before, e, entries, aside);
          NoMoreFrame(before, e, entries, aside, BothStaged(wal), Db);
          JournalsOf(before, entries, aside);
        }
        GiveUp(aside, wal, before);
        SameWhole(before, entries);
      }
    }

    /** Renames the staged files into place, once the journals are aside. */
    method Place(aside: seq<Ext>, wal: bool, snap: Snapshot, ghost n0: nat, ghost before: Entries)
        returns (ok: bool, ghost placed: bool)
      requires SetAside(before, entries, aside) && DbUntouched(n0, before)
      requires Live(Wal) !in entries && Live(Shm) !in entries && Live(Journal) !in entries
      requires NoMore(before, entries, aside, BothStaged(wal))
      requires snap.db.Some? && Get(entries, Staged(Db)) == snap.db
      requires wal ==> snap.wal.Some? && Get(entries, Staged(Wal)) == snap.wal
      modifies this
      ensures old(faults) <= faults && SameOthers(old(entries), entries)
      ensures !ok ==> |faults| > |old(faults)|
      ensures AllSafe(n0, before, snap) || SyncFailed(|old(faults)|)
      ensures ok ==> placed && (if wal then Get(entries, Live(Wal)) == snap.wal else Live(Wal) !in entries)
      ensures placed ==> Get(entries, Live(Db)) == snap.db
      ensures placed && !SyncFailed(|old(faults)|) ==> NoJournals(entries, snap)
      ensures !placed ==> SameLive(before, entries) || PutBackFailed(|old(faults)|)
      ensures SyncFailed(|old(faults)|) ==> !ok && placed
      ensures SyncFailed(|old(faults)|) ==> SameJournals(before, entries) || PutBackFailed(|old(faults)|)
      ensures Hindered(|old(faults)|) || NoMore(before, entries, [], {})
    {
      hide SetAside, SameLive, SameJournals, JournalsAside, NoMore, BothStaged;
      Rest(wal);
      ghost var was, left := entries, if wal then {Wal} else {};
      ok, placed := PlaceDatabase(aside, wal, snap, n0, before);
      if !ok {
        return;
      }
      NoMorePlaced(before, was, entries, aside, BothStaged(wal), Db);
      RemoveAsideOf(aside, n0, before, snap, left);
      if wal { ok := PlaceWal(snap, n0, before, |old(faults)|); }
    }

    /** With the database in place, the journals set aside go. */
    method RemoveAsideOf(aside: seq<Ext>, ghost n0: nat, ghost before: Entries, ghost snap: Snapshot,
        ghost staged: set<Ext>)
      requires AllSafe(n0, before, snap) && NeverMixed(before, snap, entries)
      requires NoMore(before, entries, aside, staged)
      modifies this
      ensures AllSafe(n0, before, snap) && Failures(old(faults))
      ensures SameLive(old(entries), entries) && SameOthers(old(entries), entries) && SameStaged(old(entries))
      ensures forall x: Ext :: Live(x) in entries <==> Live(x) in old(entries)
      ensures forall x: Ext :: Get(entries, Live(x)) == Get(old(entries), Live(x))
      ensures Hindered(|old(faults)|) || NoMore(before, entries, [], staged)
    {
      hide NeverMixed, NoMore, AllSafe, SameLive;
      RemoveAside(aside, n0, before, snap);
      SameLiveGet(old(entries), entries);
      if !Hindered(|old(faults)|) { NoMoreAside(before, old(entries), entries, aside, staged); }
    }

    /** And the staged WAL is renamed into place; f0 faults came before all this. */
    method PlaceWal(snap: Snapshot, ghost n0: nat, ghost before: Entries, ghost f0: nat) returns (ok: bool)
      requires AllSafe(n0, before, snap) && NeverMixed(before, snap, entries) && Live(Wal) !in entries
      requires Get(entries, Live(Db)) == snap.db && NoJournals(entries, snap)
      requires snap.wal.Some? && Get(entries, Staged(Wal)) == snap.wal
      requires f0 <= |faults| && (Hindered(f0) || NoMore(before, entries, [], {Wal}))
      modifies this
      ensures AllSafe(n0, before, snap) && SameOthers(old(entries), entries)
      ensures old(faults) <= faults && (!ok ==> |faults| > |old(faults)|)
      ensures forall k :: |old(faults)| <= k < |faults| ==> faults[k] != SyncFault(Db)
      ensures ok ==> Get(entries, Live(Wal)) == snap.wal
      ensures Get(entries, Live(Db)) == snap.db && NoJournals(entries, snap)
      ensures Hindered(f0) || NoMore(before, entries, [], {})
    {
      hide NoMore;
      ghost var done, hindered := false, Hindered(f0);
      ok, done := CommitAt(Wal);
      assert Get(entries, Live(Db)) == Get(old(entries), Live(Db));
      assert forall x: Ext :: x != Wal ==> Get(entries, Live(x)) == Get(old(entries), Live(x));
      assert !done ==> Get(entries, Live(Wal)) == Get(old(entries), Live(Wal));
      if hindered { StillHindered(f0, old(faults)); }
      if done && !hindered {
        NoMorePlaced(before, old(entries), entries, [], {Wal}, Wal);
        assert {Wal} - {Wal} == {};
      }
    }

    /** restoreDatabase. It succeeds when no call fails. On success the database and its WAL
        are the snapshot's, with no other journal (a WAL whose stat fails is taken for none).
        When the database was not renamed into place, it and its journals are as they were,
        unless a put-back rename failed too. Nothing is left staged or aside that was not
        there, unless a removal or a rename failed. In no state of the folder is the
        snapshot's database beside a journal of the version rolled back from, unless
        the sync after that rename failed: then the journals are put back beside it. */
    method RestoreDatabase(snap: Snapshot) returns (ok: bool, ghost placed: bool)
      modifies this
      ensures old(faults) <= faults && SameOthers(old(entries), entries)
      ensures snap.db.Some? && faults == old(faults) ==> ok
      ensures AllSafe(|old(history)|, old(entries), snap) || SyncFailed(|old(faults)|)
      ensures ok ==>
        placed && (Get(entries, Live(Wal)) == snap.wal || (Live(Wal) !in entries && StatFailed(|old(faults)|)))
      ensures placed ==> snap.db.Some? && Get(entries, Live(Db)) == snap.db
      ensures placed && !SyncFailed(|old(faults)|) ==> NoJournals(entries, snap)
      ensures !placed ==> SameLive(old(entries), entries) || PutBackFailed(|old(faults)|)
      ensures SyncFailed(|old(faults)|) ==> !ok && placed
      ensures SyncFailed(|old(faults)|) ==> SameJournals(old(entries), entries) || PutBackFailed(|old(faults)|)
      ensures Hindered(|old(faults)|) || NoMore(old(entries), entries, [], {})
    {
      hide SetAside, SameLive, SameJournals, JournalsAside;
      placed := false;
      ghost var n0, before := |history|, entries;
      var wal, aside;
      ok, wal := StageBoth(snap);
      if !ok {
        return;
      }
      aside, ok := SetJournalsAside(n0, before);
      if !ok {
        JournalsOf(before, entries, aside);
        GiveUp(aside, wal, before);
        SameWhole(before, entries);
        return;
      }
      ok, placed := Place(aside, wal, snap, n0, before);
    }
  }

  lemma {:induction false} NoMoreFrame(before: Entries, e: Entries, e': Entries, aside: seq<Ext>, staged: set<Ext>,
      x: Ext)
    requires NoMore(before, e, aside, staged) && x in staged
    requires forall n: Name :: n != Staged(x) ==> Get(e', n) == Get(e, n)
    ensures NoMore(before, e', aside, staged)
  {
    forall y: Ext | Aside(y) in e' ensures Aside(y) in before || y in aside {
      assert Get(e', Aside(y)) == Get(e, Aside(y));
    }
    forall y: Ext | Staged(y) in e' ensures Staged(y) in before || y in staged {
      assert y != x ==> Get(e', Staged(y)) == Get(e, Staged(y));
    }
  }

  /** A file renamed from its staged name is staged no more. */
  lemma {:induction false} NoMorePlaced(before: Entries, e: Entries, e': Entries, aside: seq<Ext>, staged: set<Ext>,
      x: Ext)
    requires NoMore(before, e, aside, staged) && Staged(x) in e
    requires e' == (e - {Staged(x)})[Live(x) := e[Staged(x)]]
    ensures NoMore(before, e', aside, staged - {x})
  {}

  lemma {:induction false} NoMoreAside(before: Entries, e: Entries, e': Entries, aside: seq<Ext>, staged: set<Ext>)
    requires NoMore(before, e, aside, staged)
    requires forall x: Ext :: Get(e', Staged(x)) == Get(e, Staged(x))
    requires forall x: Ext :: Aside(x) in e' <==> Aside(x) in e && x !in aside
    ensures NoMore(before, e', [], staged)
  {
    forall y: Ext | Staged(y) in e' ensures Staged(y) in before || y in staged {
      assert Get(e', Staged(y)) == Get(e, Staged(y));
    }
  }

  lemma {:induction false} Rest(wal: bool)
    ensures BothStaged(wal) - {Db} == if wal then {Wal} else {}
  {}

  lemma {:induction false} JournalsOf(before: Entries, e: Entries, aside: seq<Ext>)
    requires SetAside(before, e, aside)
    ensures JournalsAside(before, e, aside) && Get(e, Live(Db)) == Get(before, Live(Db))
  {}

  lemma {:induction false} SameWhole(before: Entries, e: Entries)
    ensures Get(e, Live(Db)) == Get(before, Live(Db)) && SameJournals(before, e) ==> SameLive(before, e)
  {}

  lemma {:induction false} SetAsideKeepsDb(before: Entries, e: Entries, aside: seq<Ext>)
    requires SetAside(before, e, aside)
    ensures Get(e, Live(Db)) == Get(before, Live(Db))
  {}

  lemma {:induction false} SetAsideDrop(before: Entries, e: Entries, aside: seq<Ext>, ext: Ext)
    requires SetAside(before, e, aside) && ext !in aside
    ensures SetAside(before, e - {Aside(ext)}, aside)
  {
    assert forall i :: 0 <= i < |aside| ==> aside[i] in aside;
  }

  lemma {:induction false} SetAsideMore(before: Entries, e: Entries, aside: seq<Ext>, ext: Ext)
    requires SetAside(before, e, aside) && ext !in aside && ext != Db
    ensures Live(ext) in e ==> SetAside(before, (e - {Live(ext)})[Aside(ext) := e[Live(ext)]], aside + [ext])
  {
    assert forall i :: 0 <= i < |aside| ==> aside[i] in aside;
    assert Get(e, Live(ext)) == Get(before, Live(ext));
  }

  /** The database renamed over the live one leaves the journals where they are. */
  lemma {:induction false} SetAsidePlaced(before: Entries, e: Entries, e': Entries, aside: seq<Ext>)
    requires SetAside(before, e, aside)
    requires Staged(Db) in e && e' == (e - {Staged(Db)})[Live(Db) := e[Staged(Db)]]
    ensures JournalsAside(before, e', aside)
  {}

  lemma {:induction false} PutBackNone(before: Entries, e: Entries, aside: seq<Ext>)
    requires JournalsAside(before, e, aside)
    ensures Db !in aside && (aside == [] ==> SameJournals(before, e))
  {}

  lemma {:induction false} PutBackStep(before: Entries, e: Entries, x: Ext, rest: seq<Ext>)
    requires JournalsAside(before, e, [x] + rest)
    ensures Aside(x) in e ==> JournalsAside(before, (e - {Aside(x)})[Live(x) := e[Aside(x)]], rest)
  {
    var aside := [x] + rest;
    assert aside[0] == x && forall i :: 0 <= i < |rest| ==> rest[i] == aside[i + 1];
    if Aside(x) in e {
      var e' := (e - {Aside(x)})[Live(x) := e[Aside(x)]];
      assert Get(e, Aside(x)) == Get(before, Live(x));
      forall y: Ext | y != Db && y !in rest ensures Get(e', Live(y)) == Get(before, Live(y)) {
        assert y == x || y !in aside;
      }
    }
  }

  lemma {:induction false} SameLiveGet(e: Entries, e': Entries)
    requires SameLive(e, e')
    ensures forall x: Ext :: Get(e', Live(x)) == Get(e, Live(x)) && (Live(x) in e' <==> Live(x) in e)
  {
    forall x: Ext ensures Live(x) in e' <==> Live(x) in e {
      assert Get(e', Live(x)) == Get(e, Live(x));
    }
  }

  lemma {:induction false} SetAsideFrame(before: Entries, e: Entries, e': Entries, aside: seq<Ext>)
    requires SetAside(before, e, aside)
    requires forall n: Name :: n != Staged(Db) ==> Get(e', n) == Get(e, n)
    ensures SetAside(before, e', aside)
  {
    forall i | 0 <= i < |aside| ensures Live(aside[i]) !in e' {
      assert Get(e', Live(aside[i])) == Get(e, Live(aside[i]));
    }
  }

  lemma {:induction false} SameLiveSafe(before: Entries, snap: Snapshot, e: Entries, e': Entries)
    requires NeverMixed(before, snap, e) && SameLive(e, e')
    ensures NeverMixed(before, snap, e')
  {
    assert forall x: Ext :: Live(x) in e' <==> Get(e', Live(x)).Some?;
    assert forall x: Ext :: Live(x) in e <==> Get(e, Live(x)).Some?;
    assert Get(e', Live(Shm)) == Get(e, Live(Shm)) && Get(e', Live(Journal)) == Get(e, Live(Journal));
    assert Get(e', Live(Wal)) == Get(e, Live(Wal)) && Get(e', Live(Db)) == Get(e, Live(Db));
  }

  lemma {:induction false} SetAsideNone(before: Entries, e: Entries)
    requires SameLive(before, e)
    ensures SetAside(before, e, [])
  {}

  /** The journals in aside, and no others, are under their .hsi-old names; the database is
      still in place. */
  ghost predicate SetAside(before: Entries, e: Entries, aside: seq<Ext>) {
    Get(e, Live(Db)) == Get(before, Live(Db)) && JournalsAside(before, e, aside)
  }

  ghost predicate JournalsAside(before: Entries, e: Entries, aside: seq<Ext>) {
    && (forall i :: 0 <= i < |aside| ==>
          aside[i] != Db && Live(aside[i]) !in e && Get(e, Aside(aside[i])) == Get(before, Live(aside[i])))
    && (forall i, j :: 0 <= i < j < |aside| ==> aside[i] != aside[j])
    && (forall x: Ext :: x != Db && x !in aside ==> Get(e, Live(x)) == Get(before, Live(x)))
  }
}
