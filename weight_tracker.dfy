/** A pig's weight history (src/components/WeightTracker.jsx): adding a
    measurement, the chart ordered oldest first and the list newest first. */
module WeightTracker {
  import opened Store
  import opened Sorting

  /** `handleAddWeight`: the log stored for a positive weight. */
  function MeasuredLog(pigId: Id, weight: real, dateMeasured: int, now: int): Tracked<WeightLog>
  {
    Tracked(WeightLog(pigId, Some(weight), None, Some(dateMeasured), Some(now)), Pending)
  }

  /** `handleAddWeight`. `newWeight` is None while the field is empty; an
      empty or non-positive weight writes nothing and keeps the field,
      otherwise the log is added and the field is emptied. */
  method HandleAddWeight(db: LocalDb, pigId: Id, newWeight: Option<real>, dateMeasured: int, newId: Id, now: int)
    returns (newWeight': Option<real>)
    requires newId !in db.weightLogs
    modifies db`weightLogs
    ensures newWeight.None? || newWeight.value <= 0.0 ==> db.weightLogs == old(db.weightLogs) && newWeight' == newWeight
    ensures newWeight.Some? && newWeight.value > 0.0 ==>
              db.weightLogs == old(db.weightLogs)[newId := MeasuredLog(pigId, newWeight.value, dateMeasured, now)]
              && newWeight'.None?
  {
    if newWeight.None? || newWeight.value <= 0.0 {
      return newWeight;
    }
    db.weightLogs := db.weightLogs[newId := MeasuredLog(pigId, newWeight.value, dateMeasured, now)];
    return None;
  }

  /** The chart's sort key: the measurement day. */
  function MeasuredDay(l: WeightLog): int
  {
    if l.dateMeasured.Some? then l.dateMeasured.value else 0
  }

  /** `chartData`: the pig's logs, oldest measurement first. */
  function ChartData(logs: seq<WeightLog>): seq<WeightLog>
  {
    SortBy(logs, MeasuredDay)
  }

  /** The sequence read back to front. */
  function Reverse<T>(s: seq<T>): (r: seq<T>)
    ensures |r| == |s|
    ensures forall i :: 0 <= i < |s| ==> r[i] == s[|s| - 1 - i]
  {
    if s == [] then [] else Reverse(s[1..]) + [s[0]]
  }

  /** `listData`: the chart data reversed. */
  function ListData(logs: seq<WeightLog>): seq<WeightLog>
  {
    Reverse(ChartData(logs))
  }

  // ----- Properties -----

  /** Reversing keeps the elements. */
  lemma {:induction false} ReverseKeeps<T>(s: seq<T>)
    ensures multiset(Reverse(s)) == multiset(s)
  {
    if s != [] {
      ReverseKeeps(s[1..]);
      assert s == [s[0]] + s[1..];
    }
  }

  /** The chart holds exactly the pig's logs, each measurement day no
      earlier than the one before. */
  lemma ChartIsOldestFirst(logs: seq<WeightLog>)
    requires forall l :: l in logs ==> l.dateMeasured.Some?
    ensures multiset(ChartData(logs)) == multiset(logs)
    ensures forall i :: 0 <= i < |ChartData(logs)| ==> ChartData(logs)[i].dateMeasured.Some?
    ensures forall i, j :: 0 <= i < j < |ChartData(logs)| ==>
              ChartData(logs)[i].dateMeasured.value <= ChartData(logs)[j].dateMeasured.value
  {
    SortByKeeps(logs, MeasuredDay);
    var c := ChartData(logs);
    forall i | 0 <= i < |c| ensures c[i].dateMeasured.Some? {
      assert c[i] in multiset(c);
    }
  }

  /** The list holds the same logs, newest measurement first, and is the
      chart read from its last point. */
  lemma ListIsNewestFirst(logs: seq<WeightLog>)
    requires forall l :: l in logs ==> l.dateMeasured.Some?
    ensures multiset(ListData(logs)) == multiset(logs)
    ensures forall i :: 0 <= i < |ListData(logs)| ==> ListData(logs)[i].dateMeasured.Some?
    ensures forall i, j :: 0 <= i < j < |ListData(logs)| ==>
              ListData(logs)[i].dateMeasured.value >= ListData(logs)[j].dateMeasured.value
    ensures forall i :: 0 <= i < |logs| ==> ListData(logs)[i] == ChartData(logs)[|logs| - 1 - i]
  {
    ChartIsOldestFirst(logs);
    ReverseKeeps(ChartData(logs));
  }

  /** A stored measurement is pending, belongs to the pig and carries a
      positive weight and its measurement day. */
  lemma MeasuredLogFields(pigId: Id, weight: real, dateMeasured: int, now: int)
    requires weight > 0.0
    ensures var l := MeasuredLog(pigId, weight, dateMeasured, now);
            l.syncStatus == Pending && l.row.pigId == pigId && l.row.weight == Some(weight)
            && l.row.weight.value > 0.0 && l.row.dateMeasured == Some(dateMeasured)
  {
  }
}
