/**
 * Logs with contiguous indices: what lookups, truncation and the two loops of the
 * AppendEntries handler do to them.
 */
module RaftLog {
  import opened RaftTypes
  import opened RaftHandlers

  /** Indices run on from base + 1 without a gap. */
  ghost predicate From(base: nat, log: Log) {
    forall i :: 0 <= i < |log| ==> log[i].index == base + i + 1
  }

  /** A log a node may hold: indices from 1, positive terms that never decrease. */
  ghost predicate WellFormed(log: Log) {
    && From(0, log)
    && (forall i :: 0 <= i < |log| ==> log[i].term >= 1)
    && (forall i, j :: 0 <= i <= j < |log| ==> log[i].term <= log[j].term)
  }

  lemma {:induction false} FindTermFrom(base: nat, log: Log, index: nat)
    requires From(base, log)
    ensures FindTerm(log, index) == if base < index <= base + |log| then log[index - base - 1].term else 0
    decreases |log|
  {
    if log != [] {
      FindTermFrom(base + 1, log[1..], index);
    }
  }

  lemma LogTermAtWellFormed(log: Log, index: nat)
    requires From(0, log)
    ensures LogTermAt(log, index) == if 1 <= index <= |log| then log[index - 1].term else 0
  {
    FindTermFrom(0, log, index);
  }

  lemma {:induction false} RetainBelowFrom(base: nat, log: Log, index: nat)
    requires From(base, log) && base < index <= base + |log| + 1
    ensures RetainBelow(log, index) == log[..index - base - 1]
    decreases |log|
  {
    if log == [] {
    } else if index == base + 1 {
      RetainNone(log, index);
    } else {
      RetainBelowFrom(base + 1, log[1..], index);
      assert log[..index - base - 1] == [log[0]] + log[1..][..index - base - 2];
    }
  }

  lemma {:induction false} RetainNone(log: Log, index: nat)
    requires forall i :: 0 <= i < |log| ==> log[i].index >= index
    ensures RetainBelow(log, index) == []
  {
    if log != [] {
      RetainNone(log[1..], index);
    }
  }

  // ---- The two loops of the AppendEntries handler --------------------------

  /** The log holds the first `k` entries after `prev`, and no more of them. */
  ghost predicate AgreesFor(log: Log, prev: nat, entries: seq<LogEntry>, k: nat) {
    && k <= |entries| && prev + k <= |log|
    && (forall i :: 0 <= i < k ==> log[prev + i].term == entries[i].term)
    && (k < |entries| && prev + k < |log| ==> log[prev + k].term != entries[k].term)
  }

  /** Length of the leading part of `entries` that the log already holds after `prev`. */
  function Agreement(log: Log, prev: nat, entries: seq<LogEntry>): (k: nat)
    requires prev <= |log|
    ensures AgreesFor(log, prev, entries, k)
    decreases |entries|
  {
    if entries == [] || prev == |log| || log[prev].term != entries[0].term then 0
    else 1 + Agreement(log, prev + 1, entries[1..])
  }

  /** Reference result: keep the log if it holds every entry, else cut at the first gap and extend. */
  function Splice(log: Log, prev: nat, entries: seq<LogEntry>): Log
    requires prev <= |log|
  {
    var k := Agreement(log, prev, entries);
    if k == |entries| then log else log[..prev + k] + entries[k..]
  }

  lemma {:induction false} TruncateNothing(log: Log, base: nat, entries: seq<LogEntry>)
    requires WellFormed(log) && |log| <= base && From(base, entries)
    ensures TruncateConflicts(log, entries) == log
    decreases |entries|
  {
    if entries != [] {
      LogTermAtWellFormed(log, entries[0].index);
      TruncateNothing(log, base + 1, entries[1..]);
    }
  }

  lemma TruncateHere(log: Log, prev: nat, entries: seq<LogEntry>)
    requires WellFormed(log) && prev <= |log| && From(prev, entries) && entries != []
    requires prev == |log| || log[prev].term != entries[0].term
    ensures TruncateConflicts(log, entries) == log[..prev]
  {
    LogTermAtWellFormed(log, entries[0].index);
    RetainBelowFrom(0, log, entries[0].index);
    assert prev == |log| ==> log == log[..prev];
    TruncateNothing(log[..prev], prev + 1, entries[1..]);
  }

  lemma {:induction false} TruncateAtConflict(log: Log, prev: nat, entries: seq<LogEntry>)
    requires WellFormed(log) && prev <= |log| && From(prev, entries)
    ensures TruncateConflicts(log, entries)
         == var k := Agreement(log, prev, entries); if k == |entries| then log else log[..prev + k]
    decreases |entries|
  {
    if entries == [] {
    } else if prev == |log| || log[prev].term != entries[0].term {
      TruncateHere(log, prev, entries);
    } else {
      LogTermAtWellFormed(log, entries[0].index);
      assert TruncateConflicts(log, entries) == TruncateConflicts(log, entries[1..]);
      TruncateAtConflict(log, prev + 1, entries[1..]);
    }
  }

  lemma {:induction false} AppendTail(log: Log, prev: nat, entries: seq<LogEntry>)
    requires From(0, log) && (forall i :: 0 <= i < |log| ==> log[i].term >= 1)
    requires prev <= |log| && From(prev, entries)
    requires forall i :: 0 <= i < |entries| ==> entries[i].term >= 1
    ensures AppendMissing(log, entries)
         == if |log| - prev < |entries| then log + entries[|log| - prev..] else log
    decreases |entries|
  {
    if entries != [] {
      LogTermAtWellFormed(log, entries[0].index);
      var log' := if prev == |log| then log + [entries[0]] else log;
      AppendTail(log', prev + 1, entries[1..]);
      if prev == |log| {
        assert log' + entries[1..] == log + entries;
      } else if |log| - prev < |entries| {
        assert entries[1..][|log| - prev - 1..] == entries[|log| - prev..];
      }
    }
  }

  /** The truncate loop followed by the append loop computes the splice. */
  lemma MergeIsSplice(log: Log, prev: nat, entries: seq<LogEntry>)
    requires WellFormed(log) && prev <= |log| && From(prev, entries)
    requires forall i :: 0 <= i < |entries| ==> entries[i].term >= 1
    ensures Merge(log, entries) == Splice(log, prev, entries)
  {
    TruncateAtConflict(log, prev, entries);
    var k := Agreement(log, prev, entries);
    if k == |entries| {
      AppendTail(log, prev, entries);
    } else {
      AppendTail(log[..prev + k], prev, entries);
    }
  }

  // ---- Reading the stored log back -----------------------------------------

  lemma {:induction false} GetEntriesFrom(base: nat, log: Log, to: nat)
    requires From(base, log) && base + |log| <= to
    ensures GetEntries(log, 1, to) == log
    decreases |log|
  {
    if log != [] {
      GetEntriesFrom(base + 1, log[1..], to);
    }
  }

  /** A restart reads back the whole stored log. */
  lemma RestartReadsLog(disk: Disk)
    requires From(0, disk.log)
    ensures NodeRestart(disk).st.log == disk.log
  {
    GetEntriesFrom(0, disk.log, |disk.log|);
  }

  // ---- Writing it ----------------------------------------------------------

  lemma {:induction false} CutAtFrom(base: nat, log: Log, index: nat)
    requires From(base, log) && index > base
    ensures CutAt(log, index) == if index <= base + |log| then log[..index - base - 1] else log
    decreases |log|
  {
    if log != [] && log[0].index < index {
      CutAtFrom(base + 1, log[1..], index);
      assert index <= base + |log| ==> log[..index - base - 1] == [log[0]] + log[1..][..index - base - 2];
    }
  }

  /** Storing an entry keeps what is stored before its index and drops what is from it on. */
  lemma StoreEntryExact(log: Log, e: LogEntry)
    requires From(0, log) && e.index > 0
    ensures StoreEntry(log, e) == (if e.index <= |log| then log[..e.index - 1] else log) + [e]
  {
    CutAtFrom(0, log, e.index);
  }
}
