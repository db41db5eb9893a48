/** The scan-status collector: each status message from an explorer or a
    worker is folded into the counters of the scan's status row, under a
    row lock. An explorer message (one that carries `total_objects`)
    counts a source as explored; a worker message (one that carries an
    object size and type) counts a scanned object. The snapshot schedule,
    the notification mail and the metrics are not part of this model. */
module StatusCollector {
  import opened Wrappers

  /** A status message, with the fields the collector reads. */
  datatype StatusMessage = StatusMessage(
    scanner: int,
    scanTag: string,
    message: string,
    statusIsError: bool,
    totalObjects: Option<nat>,
    newSources: Option<nat>,
    objectSize: Option<nat>,
    objectType: Option<string>)

  /** The counters and latest message of one scan's status row. */
  datatype ScanStatus = ScanStatus(
    message: string,
    lastModified: int,
    statusIsError: bool,
    totalObjects: nat,
    totalSources: nat,
    exploredSources: nat,
    scannedObjects: nat,
    scannedSize: nat)

  predicate IsExplorer(m: StatusMessage) {
    m.totalObjects.Some?
  }

  predicate IsWorker(m: StatusMessage) {
    !IsExplorer(m) && m.objectSize.Some? && m.objectType.Some?
  }

  /** `message.new_sources or 0`. */
  function NewSources(m: StatusMessage): nat {
    if m.newSources.Some? then m.newSources.value else 0
  }

  /** The row after one message received at time `now`. */
  function Apply(st: ScanStatus, m: StatusMessage, now: int): (r: ScanStatus)
    ensures IsExplorer(m) ==>
      r.totalObjects == st.totalObjects + m.totalObjects.value &&
      r.totalSources == st.totalSources + NewSources(m) &&
      r.exploredSources == st.exploredSources + 1 &&
      r.scannedObjects == st.scannedObjects && r.scannedSize == st.scannedSize
    ensures IsWorker(m) ==>
      r.scannedSize == st.scannedSize + m.objectSize.value &&
      r.scannedObjects == st.scannedObjects + 1 &&
      r.totalObjects == st.totalObjects && r.totalSources == st.totalSources &&
      r.exploredSources == st.exploredSources
    ensures (IsExplorer(m) || IsWorker(m)) ==>
      r.message == m.message && r.statusIsError == m.statusIsError && r.lastModified == now
    ensures !IsExplorer(m) && !IsWorker(m) ==> r == st
  {
    if m.totalObjects.Some? then
      st.(message := m.message, lastModified := now, statusIsError := m.statusIsError,
          totalObjects := st.totalObjects + m.totalObjects.value,
          totalSources := st.totalSources + NewSources(m),
          exploredSources := st.exploredSources + 1)
    else if m.objectSize.Some? && m.objectType.Some? then
      st.(message := m.message, lastModified := now, statusIsError := m.statusIsError,
          scannedSize := st.scannedSize + m.objectSize.value,
          scannedObjects := st.scannedObjects + 1)
    else st
  }

  /** The row after a run of messages, all received at `now`: no counter
      goes down, and a run in which no message is an explorer's or a
      worker's leaves the row as it was. */
  function ApplyAll(st: ScanStatus, ms: seq<StatusMessage>, now: int): (r: ScanStatus)
    ensures Grows(st, r)
    ensures (forall i :: 0 <= i < |ms| ==> !IsExplorer(ms[i]) && !IsWorker(ms[i])) ==> r == st
    decreases |ms|
  {
    if ms == [] then st else ApplyAll(Apply(st, ms[0], now), ms[1..], now)
  }

  function ExplorerCount(ms: seq<StatusMessage>): nat {
    if ms == [] then 0 else (if IsExplorer(ms[0]) then 1 else 0) + ExplorerCount(ms[1..])
  }

  function WorkerCount(ms: seq<StatusMessage>): nat {
    if ms == [] then 0 else (if IsWorker(ms[0]) then 1 else 0) + WorkerCount(ms[1..])
  }

  /** The counters never go down. */
  predicate Grows(a: ScanStatus, b: ScanStatus) {
    a.totalObjects <= b.totalObjects && a.totalSources <= b.totalSources &&
    a.exploredSources <= b.exploredSources && a.scannedObjects <= b.scannedObjects &&
    a.scannedSize <= b.scannedSize
  }

  /** Folding a run of messages: the explored sources count the explorer
      messages, the scanned objects count the worker messages, and no
      counter goes down. */
  lemma {:induction false} ApplyAllCounts(st: ScanStatus, ms: seq<StatusMessage>, now: int)
    ensures ApplyAll(st, ms, now).exploredSources == st.exploredSources + ExplorerCount(ms)
    ensures ApplyAll(st, ms, now).scannedObjects == st.scannedObjects + WorkerCount(ms)
    ensures Grows(st, ApplyAll(st, ms, now))
    decreases |ms|
  {
    if ms != [] {
      ApplyAllCounts(Apply(st, ms[0], now), ms[1..], now);
    }
  }

  /** The order of the messages does not matter to the counters: two
      messages swapped give the same counts. */
  lemma ApplyCommutes(st: ScanStatus, m1: StatusMessage, m2: StatusMessage, now: int)
    ensures var a := Apply(Apply(st, m1, now), m2, now);
            var b := Apply(Apply(st, m2, now), m1, now);
      a.totalObjects == b.totalObjects && a.totalSources == b.totalSources &&
      a.exploredSources == b.exploredSources && a.scannedObjects == b.scannedObjects &&
      a.scannedSize == b.scannedSize
  {
  }

  /** The status rows, keyed by scanner and scan tag, the scanners that
      still exist, and each scanner's `e2_last_run_at`. */
  class StatusTable {
    var rows: map<(int, string), ScanStatus>
    var scanners: set<int>
    var lastRunAt: map<int, int>

    constructor (rows: map<(int, string), ScanStatus>, scanners: set<int>)
      ensures this.rows == rows && this.scanners == scanners && lastRunAt == map[]
    {
      this.rows := rows;
      this.scanners := scanners;
      lastRunAt := map[];
    }

    /** `status_message_received_raw`: a message for a deleted scanner or a
        missing row changes nothing; otherwise the row's counters are
        updated, and a row that is then finished (`finished` stands for the
        row's own test, which is not part of this model) stamps its
        scanner's last run time. */
    method Receive(m: StatusMessage, now: int, finished: ScanStatus -> bool)
      modifies this
      ensures scanners == old(scanners)
      ensures var key := (m.scanner, m.scanTag);
        if m.scanner !in old(scanners) || key !in old(rows) then
          rows == old(rows) && lastRunAt == old(lastRunAt)
        else
          rows == old(rows)[key := Apply(old(rows)[key], m, now)] &&
          lastRunAt == (if finished(rows[key]) then old(lastRunAt)[m.scanner := rows[key].lastModified]
                        else old(lastRunAt))
    {
      if m.scanner !in scanners {
        return;
      }
      var key := (m.scanner, m.scanTag);
      if key !in rows {
        return;
      }
      var st := rows[key];
      if m.totalObjects.Some? {
        st := st.(message := m.message, lastModified := now, statusIsError := m.statusIsError,
                  totalObjects := st.totalObjects + m.totalObjects.value,
                  totalSources := st.totalSources + (if m.newSources.Some? then m.newSources.value else 0),
                  exploredSources := st.exploredSources + 1);
      } else if m.objectSize.Some? && m.objectType.Some? {
        st := st.(message := m.message, lastModified := now, statusIsError := m.statusIsError,
                  scannedSize := st.scannedSize + m.objectSize.value,
                  scannedObjects := st.scannedObjects + 1);
      }
      rows := rows[key := st];
      if finished(st) {
        lastRunAt := lastRunAt[m.scanner := st.lastModified];
      }
    }
  }
}
