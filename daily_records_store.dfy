/**
 * The daily-record cache: an array of daily records kept in ascending
 * order of day, a binary search for a day or its insertion point, a
 * selection that inserts a placeholder for a new day, and the merge of a
 * fetched, day-ordered batch into the array.
 *
 * A date is a millisecond timestamp, a day is the timestamp of a date with
 * its time cut off (by `getDateWithoutTime`, which the caller supplies), and
 * the clock (`new Date()`) is a parameter.
 */
module DailyRecordsStoreModel {
  import opened Common
  import JsArray
  import DefinedValues

  /** A daily record as the store holds it. */
  datatype DailyRecord = DailyRecord(
    id: int,
    createdAt: int,
    updatedAt: int,
    day: int,
    mood: Option<int>,                    // maybeNull: None is null
    note: Option<string>,                 // maybeNull: None is null
    activityCategories: Field<seq<int>>,  // maybe: ids of the referenced categories, or undefined
    tasks: Field<seq<int>>)               // maybe: ids of the referenced tasks, or undefined

  /**
   * A daily record as the API wrapper delivers it: the id and the three
   * dates are always there; a narrowed `select` leaves the rest undefined.
   */
  datatype DailyRecordIn = DailyRecordIn(
    id: int,
    createdAt: int,
    updatedAt: int,
    day: int,
    mood: Field<Option<int>>,
    note: Field<Option<string>>,
    activityCategories: Field<seq<int>>,
    tasks: Field<seq<int>>)

  /** What `getCorrespondingIndex` returns. */
  datatype IndexResult = IndexResult(index: nat, isSameDay: bool)

  // ---------------------------------------------------------------------------
  // Records and their copies

  /**
   * The record created from a fetched snapshot: the model's defaults (null for
   * the `maybeNull` mood and note, undefined for the `maybe` lists) with every
   * defined property of the snapshot copied over them.
   */
  function FromSnapshot(d: DailyRecordIn): (r: DailyRecord)
    ensures r == CopyDefined(DailyRecord(d.id, d.createdAt, d.updatedAt, d.day, None, None, Undefined, Undefined), d)
  {
    DailyRecord(d.id, d.createdAt, d.updatedAt, d.day,
      if d.mood.Defined? then d.mood.value else None,
      if d.note.Defined? then d.note.value else None,
      d.activityCategories, d.tasks)
  }

  /** `copyDefinedValues(current, incoming)` on a daily record: every defined field of incoming overwrites current's. */
  function CopyDefined(current: DailyRecord, incoming: DailyRecordIn): (r: DailyRecord)
    // the id and the three dates are always defined, so they always come from incoming
    ensures r.id == incoming.id && r.createdAt == incoming.createdAt && r.updatedAt == incoming.updatedAt && r.day == incoming.day
    // a property a narrowed select left undefined keeps what current had
    ensures incoming.mood.Undefined? ==> r.mood == current.mood
    ensures incoming.note.Undefined? ==> r.note == current.note
    ensures incoming.activityCategories.Undefined? ==> r.activityCategories == current.activityCategories
    ensures incoming.tasks.Undefined? ==> r.tasks == current.tasks
  {
    DailyRecord(incoming.id, incoming.createdAt, incoming.updatedAt, incoming.day,
      if incoming.mood.Defined? then incoming.mood.value else current.mood,
      if incoming.note.Defined? then incoming.note.value else current.note,
      if incoming.activityCategories.Defined? then incoming.activityCategories else current.activityCategories,
      if incoming.tasks.Defined? then incoming.tasks else current.tasks)
  }

  /** The placeholder `select` creates for a day that has no record yet: nothing recorded, and an id no saved record has. */
  function Placeholder(day: int, now: int): (r: DailyRecord)
    ensures r.day == day && r.id == -day
    ensures day > 0 ==> r.id < 0
    ensures r.mood == None && r.note == None && r.activityCategories == Defined([]) && r.tasks == Defined([])
  {
    DailyRecord(-day, now, now, day, None, None, Defined([]), Defined([]))
  }

  /**
   * The store's `dummyDailyRecord` default: an unsaved, empty record whose
   * dates are a time read before the store is created (the default object
   * literal reads the clock three times; here it is one reading).
   */
  function Dummy(now: int): (r: DailyRecord)
    ensures r.id < 0
    ensures r.mood == None && r.note == None && r.activityCategories == Defined([]) && r.tasks == Defined([])
  {
    DailyRecord(-1, now, now, now, None, None, Defined([]), Defined([]))
  }

  function Ids(rs: seq<DailyRecord>): seq<int>
  {
    seq(|rs|, i requires 0 <= i < |rs| => rs[i].id)
  }

  function BatchIds(batch: seq<DailyRecordIn>): seq<int>
  {
    seq(|batch|, i requires 0 <= i < |batch| => batch[i].id)
  }

  // The same records as plain JavaScript objects, to relate CopyDefined to copyDefinedValues.

  /** The properties of a daily record. */
  datatype Prop = Id | CreatedAt | UpdatedAt | Day | Mood | Note | ActivityCategories | Tasks

  function NullableNumber(v: Option<int>): DefinedValues.JsValue
  {
    if v.Some? then DefinedValues.JsNumber(v.value) else DefinedValues.JsNull
  }

  function NullableString(v: Option<string>): DefinedValues.JsValue
  {
    if v.Some? then DefinedValues.JsString(v.value) else DefinedValues.JsNull
  }

  function IdList(v: Field<seq<int>>): DefinedValues.JsValue
  {
    if v.Defined? then DefinedValues.JsNumbers(v.value) else DefinedValues.JsUndefined
  }

  function ToObject(r: DailyRecord): map<Prop, DefinedValues.JsValue>
  {
    map[
      Id := DefinedValues.JsNumber(r.id),
      CreatedAt := DefinedValues.JsDate(r.createdAt),
      UpdatedAt := DefinedValues.JsDate(r.updatedAt),
      Day := DefinedValues.JsDate(r.day),
      Mood := NullableNumber(r.mood),
      Note := NullableString(r.note),
      ActivityCategories := IdList(r.activityCategories),
      Tasks := IdList(r.tasks)]
  }

  function InToObject(d: DailyRecordIn): map<Prop, DefinedValues.JsValue>
  {
    map[
      Id := DefinedValues.JsNumber(d.id),
      CreatedAt := DefinedValues.JsDate(d.createdAt),
      UpdatedAt := DefinedValues.JsDate(d.updatedAt),
      Day := DefinedValues.JsDate(d.day),
      Mood := if d.mood.Defined? then NullableNumber(d.mood.value) else DefinedValues.JsUndefined,
      Note := if d.note.Defined? then NullableString(d.note.value) else DefinedValues.JsUndefined,
      ActivityCategories := IdList(d.activityCategories),
      Tasks := IdList(d.tasks)]
  }

  /** CopyDefined is `copyDefinedValues` applied to the record's properties. */
  lemma CopyDefinedIsCopyDefinedValues(current: DailyRecord, incoming: DailyRecordIn)
    ensures ToObject(CopyDefined(current, incoming)) == DefinedValues.Merged(ToObject(current), InToObject(incoming))
  {
    var cur, inc := ToObject(current), InToObject(incoming);
    var lhs := ToObject(CopyDefined(current, incoming));
    forall k
      ensures k in lhs && k in cur && k in inc
      ensures lhs[k] == if inc[k] != DefinedValues.JsUndefined then inc[k] else cur[k]
    {
      match k
      case Id =>
      case CreatedAt =>
      case UpdatedAt =>
      case Day =>
      case Mood =>
      case Note =>
      case ActivityCategories =>
      case Tasks =>
    }
    DefinedValues.MergedByKeys(cur, inc, lhs);
  }

  // ---------------------------------------------------------------------------
  // Order by day

  /** Copying the same fetched record a second time changes nothing more. */
  lemma CopyDefinedTwice(current: DailyRecord, incoming: DailyRecordIn)
    ensures CopyDefined(CopyDefined(current, incoming), incoming) == CopyDefined(current, incoming)
  {
  }

  predicate SortedByDay(rs: seq<DailyRecord>)
  {
    forall i, j :: 0 <= i < j < |rs| ==> rs[i].day <= rs[j].day
  }

  predicate BatchSortedByDay(batch: seq<DailyRecordIn>)
  {
    forall i, j :: 0 <= i < j < |batch| ==> batch[i].day <= batch[j].day
  }

  // ---------------------------------------------------------------------------
  // getCorrespondingIndex

  /**
   * The binary search over [startIndex, endIndex). It stops when the middle
   * record has the day, or when the range is empty; each call strictly
   * shrinks the range. On an array sorted by day, a result that is not the
   * same day is the insertion point of the range.
   */
  function CorrespondingIndex(rs: seq<DailyRecord>, day: int, startIndex: nat, endIndex: nat): (r: IndexResult)
    requires startIndex <= endIndex <= |rs|
    ensures startIndex <= r.index <= endIndex
    ensures r.isSameDay ==> r.index < |rs| && rs[r.index].day == day
    ensures SortedByDay(rs) && !r.isSameDay ==>
      && (forall i :: startIndex <= i < r.index ==> rs[i].day < day)
      && (forall i :: r.index <= i < endIndex ==> rs[i].day > day)
    decreases endIndex - startIndex
  {
    var boundaryIndex := startIndex + (endIndex - startIndex) / 2;
    var isSameDay := boundaryIndex < |rs| && rs[boundaryIndex].day == day;
    if isSameDay || startIndex == endIndex then
      IndexResult(boundaryIndex, isSameDay)
    else if day > rs[boundaryIndex].day then
      CorrespondingIndex(rs, day, boundaryIndex + 1, endIndex)
    else
      CorrespondingIndex(rs, day, startIndex, boundaryIndex)
  }

  /**
   * `getCorrespondingIndex(day)` with its default range, the whole array.
   * On a sorted array it reports the same day exactly when some record has
   * that day, and otherwise the point where a record for it belongs.
   */
  function Locate(rs: seq<DailyRecord>, day: int): (r: IndexResult)
    ensures r.index <= |rs|
    ensures r.isSameDay ==> r.index < |rs| && rs[r.index].day == day
    ensures SortedByDay(rs) ==> (r.isSameDay <==> exists i :: 0 <= i < |rs| && rs[i].day == day)
    ensures SortedByDay(rs) && !r.isSameDay ==>
      && (forall i :: 0 <= i < r.index ==> rs[i].day < day)
      && (forall i :: r.index <= i < |rs| ==> rs[i].day > day)
  {
    CorrespondingIndex(rs, day, 0, |rs|)
  }

  /** Inserting a record for a new day at its insertion point keeps the array sorted. */
  lemma InsertAtLocateKeepsOrder(rs: seq<DailyRecord>, r: DailyRecord)
    requires SortedByDay(rs)
    requires !Locate(rs, r.day).isSameDay
    ensures SortedByDay(rs[..Locate(rs, r.day).index] + [r] + rs[Locate(rs, r.day).index..])
  {
    var i := Locate(rs, r.day).index;
    var s := rs[..i] + [r] + rs[i..];
    forall a, b | 0 <= a < b < |s|
      ensures s[a].day <= s[b].day
    {
      if b < i {
        assert s[a] == rs[a] && s[b] == rs[b];
      } else if b == i {
        assert s[a] == rs[a];
      } else if a == i {
        assert s[b] == rs[b - 1];
      } else if a < i {
        assert s[a] == rs[a] && s[b] == rs[b - 1];
      } else {
        assert s[a] == rs[a - 1] && s[b] == rs[b - 1];
      }
    }
  }

  // ---------------------------------------------------------------------------
  // readManyDailyRecords

  /** The inner `while`: from `from` on, the first index whose day is not before `day`, or the length. */
  function ScanFrom(rs: seq<DailyRecord>, day: int, from: nat): (r: nat)
    requires from <= |rs|
    ensures from <= r <= |rs|
    ensures forall k :: from <= k < r ==> rs[k].day < day
    ensures r < |rs| ==> rs[r].day >= day
    decreases |rs| - from
  {
    if from == |rs| then from
    else if rs[from].day >= day then from
    else ScanFrom(rs, day, from + 1)
  }

  /** One fetched record at position index: a record there with the same id is updated in place, otherwise the fetched one is spliced in there. */
  function MergeOne(rs: seq<DailyRecord>, d: DailyRecordIn, index: nat): (r: seq<DailyRecord>)
    requires index <= |rs|
    ensures |r| == if index < |rs| && rs[index].id == d.id then |rs| else |rs| + 1
    ensures r[..index] == rs[..index]
  {
    if index < |rs| && rs[index].id == d.id then rs[index := CopyDefined(rs[index], d)]
    else rs[..index] + [FromSnapshot(d)] + rs[index..]
  }

  /** The `for` loop over the fetched batch, resuming each scan at `lastIndex`, which moves only when the scan stops inside the array. */
  function MergeFrom(rs: seq<DailyRecord>, batch: seq<DailyRecordIn>, lastIndex: nat): (r: seq<DailyRecord>)
    requires lastIndex <= |rs|
    ensures |rs| <= |r| <= |rs| + |batch|
    decreases |batch|
  {
    if batch == [] then rs
    else
      var index := ScanFrom(rs, batch[0].day, lastIndex);
      var next := if index < |rs| then index else lastIndex;
      MergeFrom(MergeOne(rs, batch[0], index), batch[1..], next)
  }

  /** The reference merge: every fetched record is placed by a scan from the start of the array. */
  function MergeNaive(rs: seq<DailyRecord>, batch: seq<DailyRecordIn>): (r: seq<DailyRecord>)
    ensures |rs| <= |r| <= |rs| + |batch|
    decreases |batch|
  {
    if batch == [] then rs
    else MergeNaive(MergeOne(rs, batch[0], ScanFrom(rs, batch[0].day, 0)), batch[1..])
  }

  /** When every record before `from` is earlier than day, scanning from `from` stops where scanning from 0 does. */
  lemma ScanSkipsEarlier(rs: seq<DailyRecord>, day: int, from: nat)
    requires from <= |rs|
    requires forall k :: 0 <= k < from ==> rs[k].day < day
    ensures ScanFrom(rs, day, from) == ScanFrom(rs, day, 0)
  {
  }

  /**
   * On a batch sorted by day, restarting each scan at `lastIndex` instead of
   * at 0 places every fetched record where a scan from 0 would.
   */
  lemma {:induction false} CursorAgreesWithFullScan(rs: seq<DailyRecord>, batch: seq<DailyRecordIn>, lastIndex: nat)
    requires lastIndex <= |rs|
    requires BatchSortedByDay(batch)
    requires batch != [] ==> forall k :: 0 <= k < lastIndex ==> rs[k].day < batch[0].day
    ensures MergeFrom(rs, batch, lastIndex) == MergeNaive(rs, batch)
    decreases |batch|
  {
    if batch != [] {
      var d := batch[0];
      var index := ScanFrom(rs, d.day, lastIndex);
      var next := if index < |rs| then index else lastIndex;
      var rs' := MergeOne(rs, d, index);
      ScanSkipsEarlier(rs, d.day, lastIndex);
      var rest := batch[1..];
      assert BatchSortedByDay(rest) by {
        forall i, j | 0 <= i < j < |rest| ensures rest[i].day <= rest[j].day {
          assert rest[i] == batch[i + 1] && rest[j] == batch[j + 1];
        }
      }
      if rest != [] {
        assert rest[0] == batch[1];
        forall k | 0 <= k < next
          ensures rs'[k].day < rest[0].day
        {
          assert rs'[..index][k] == rs[..index][k];
          assert rs[k].day < d.day;
        }
      }
      CursorAgreesWithFullScan(rs', rest, next);
    }
  }

  /** Placing one fetched record by a scan from 0 keeps a sorted array sorted. */
  lemma MergeOneKeepsOrder(rs: seq<DailyRecord>, d: DailyRecordIn)
    requires SortedByDay(rs)
    ensures SortedByDay(MergeOne(rs, d, ScanFrom(rs, d.day, 0)))
  {
    var i := ScanFrom(rs, d.day, 0);
    var s := MergeOne(rs, d, i);
    if i < |rs| && rs[i].id == d.id {
      forall a, b | 0 <= a < b < |s|
        ensures s[a].day <= s[b].day
      {
        if a == i {
          assert rs[i].day <= rs[b].day;
        }
      }
    } else {
      forall a, b | 0 <= a < b < |s|
        ensures s[a].day <= s[b].day
      {
        if b < i {
          assert s[a] == rs[a] && s[b] == rs[b];
        } else if b == i {
          assert s[a] == rs[a];
        } else if a == i {
          assert s[b] == rs[b - 1];
        } else if a < i {
          assert s[a] == rs[a] && s[b] == rs[b - 1];
        } else {
          assert s[a] == rs[a - 1] && s[b] == rs[b - 1];
        }
      }
    }
  }

  lemma {:induction false} MergeNaiveKeepsOrder(rs: seq<DailyRecord>, batch: seq<DailyRecordIn>)
    requires SortedByDay(rs)
    ensures SortedByDay(MergeNaive(rs, batch))
    decreases |batch|
  {
    if batch != [] {
      MergeOneKeepsOrder(rs, batch[0]);
      MergeNaiveKeepsOrder(MergeOne(rs, batch[0], ScanFrom(rs, batch[0].day, 0)), batch[1..]);
    }
  }

  /** If the stored array and the fetched batch are both sorted by day, the merged array is sorted by day. */
  lemma MergeKeepsOrder(rs: seq<DailyRecord>, batch: seq<DailyRecordIn>)
    requires SortedByDay(rs)
    requires BatchSortedByDay(batch)
    ensures SortedByDay(MergeFrom(rs, batch, 0))
  {
    CursorAgreesWithFullScan(rs, batch, 0);
    MergeNaiveKeepsOrder(rs, batch);
  }

  lemma IdsInsert(rs: seq<DailyRecord>, i: nat, r: DailyRecord)
    requires i <= |rs|
    ensures Ids(rs[..i] + [r] + rs[i..]) == Ids(rs)[..i] + [r.id] + Ids(rs)[i..]
  {
    var a, b := Ids(rs[..i] + [r] + rs[i..]), Ids(rs)[..i] + [r.id] + Ids(rs)[i..];
    assert |a| == |b|;
    forall k | 0 <= k < |a|
      ensures a[k] == b[k]
    {
      if k < i {
        assert a[k] == rs[k].id;
      } else if k > i {
        assert a[k] == rs[k - 1].id;
      }
    }
  }

  /** One fetched record: no stored record disappears, and the only id that can be added is the fetched one. */
  lemma MergeOneKeepsRecords(rs: seq<DailyRecord>, d: DailyRecordIn, index: nat)
    requires index <= |rs|
    ensures multiset(Ids(rs)) <= multiset(Ids(MergeOne(rs, d, index)))
    ensures multiset(Ids(MergeOne(rs, d, index))) <= multiset(Ids(rs)) + multiset{d.id}
    ensures d.id in Ids(MergeOne(rs, d, index))
  {
    var r := MergeOne(rs, d, index);
    var before := Ids(rs);
    if index < |rs| && rs[index].id == d.id {
      assert Ids(r) == before;
      assert before[index] == d.id;
    } else {
      IdsInsert(rs, index, FromSnapshot(d));
      assert Ids(r) == before[..index] + [d.id] + before[index..];
      assert before == before[..index] + before[index..];
      assert multiset(Ids(r)) == multiset(before) + multiset{d.id};
    }
  }

  /** Two growth steps, each bounded by what it may add, are bounded by the sum. */
  lemma BetweenChain(a: multiset<int>, b: multiset<int>, c: multiset<int>, x: multiset<int>, y: multiset<int>)
    requires a <= b <= a + x
    requires b <= c <= b + y
    ensures a <= c <= a + (x + y)
  {
  }

  lemma BatchIdsCons(batch: seq<DailyRecordIn>)
    requires batch != []
    ensures BatchIds(batch) == [batch[0].id] + BatchIds(batch[1..])
    ensures multiset(BatchIds(batch)) == multiset{batch[0].id} + multiset(BatchIds(batch[1..]))
  {
    assert BatchIds(batch) == [batch[0].id] + BatchIds(batch[1..]);
  }

  /** An id of a list is in every list whose ids include it as often. */
  lemma IdSurvives(id: int, xs: seq<int>, ys: seq<int>)
    requires id in xs
    requires multiset(xs) <= multiset(ys)
    ensures id in ys
  {
    assert multiset(xs)[id] > 0;
  }

  /**
   * The merge removes no stored record: every stored id is still there as
   * often as before, and every added record is one of the fetched ones.
   */
  lemma {:induction false} MergeKeepsRecords(rs: seq<DailyRecord>, batch: seq<DailyRecordIn>, lastIndex: nat)
    requires lastIndex <= |rs|
    ensures multiset(Ids(rs)) <= multiset(Ids(MergeFrom(rs, batch, lastIndex)))
    ensures multiset(Ids(MergeFrom(rs, batch, lastIndex))) <= multiset(Ids(rs)) + multiset(BatchIds(batch))
    decreases |batch|
  {
    if batch != [] {
      var d := batch[0];
      var index := ScanFrom(rs, d.day, lastIndex);
      var next := if index < |rs| then index else lastIndex;
      var rs' := MergeOne(rs, d, index);
      MergeOneKeepsRecords(rs, d, index);
      MergeKeepsRecords(rs', batch[1..], next);
      BatchIdsCons(batch);
      BetweenChain(multiset(Ids(rs)), multiset(Ids(rs')), multiset(Ids(MergeFrom(rs', batch[1..], next))), multiset{d.id}, multiset(BatchIds(batch[1..])));
    }
  }

  /** Every fetched id is in the merged array. */
  lemma {:induction false} MergeKeepsFetched(rs: seq<DailyRecord>, batch: seq<DailyRecordIn>, lastIndex: nat)
    requires lastIndex <= |rs|
    ensures forall id :: id in BatchIds(batch) ==> id in Ids(MergeFrom(rs, batch, lastIndex))
    decreases |batch|
  {
    if batch != [] {
      var d := batch[0];
      var index := ScanFrom(rs, d.day, lastIndex);
      var next := if index < |rs| then index else lastIndex;
      var rs' := MergeOne(rs, d, index);
      var out := MergeFrom(rs', batch[1..], next);
      MergeOneKeepsRecords(rs, d, index);
      MergeKeepsRecords(rs', batch[1..], next);
      MergeKeepsFetched(rs', batch[1..], next);
      IdSurvives(d.id, Ids(rs'), Ids(out));
      BatchIdsCons(batch);
    }
  }

  // ---------------------------------------------------------------------------
  // The store

  class DailyRecordsStore {
    var dailyRecords: seq<DailyRecord>
    /** The id of the referenced record. */
    var selectedDailyRecord: Option<int>
    var dummyDailyRecord: DailyRecord
    /** The snapshot `afterCreate` takes: the store is created empty, with the dummy's fixed default. */
    const initialDummy: DailyRecord

    constructor (now: int)
      ensures dailyRecords == [] && selectedDailyRecord == None
      ensures dummyDailyRecord == Dummy(now) && initialDummy == Dummy(now)
    {
      dailyRecords := [];
      selectedDailyRecord := None;
      dummyDailyRecord := Dummy(now);
      initialDummy := Dummy(now);
    }

    /** `reset`: back to the snapshot taken at creation. */
    method Reset()
      modifies this
      ensures dailyRecords == [] && selectedDailyRecord == None && dummyDailyRecord == initialDummy
    {
      dailyRecords := [];
      selectedDailyRecord := None;
      dummyDailyRecord := initialDummy;
    }

    /**
     * `select({ dailyRecord, datetime })`. With a datetime, the record of its
     * day is selected, after a placeholder is inserted at the insertion
     * point when the day has none; otherwise the given record is selected
     * and the array is left alone.
     */
    method Select(dailyRecord: Option<int>, datetime: Option<int>, dateWithoutTime: int -> int, now: int)
      modifies this
      ensures dummyDailyRecord == old(dummyDailyRecord)
      ensures datetime.None? ==> dailyRecords == old(dailyRecords) && selectedDailyRecord == dailyRecord
      ensures datetime.Some? && Locate(old(dailyRecords), dateWithoutTime(datetime.value)).isSameDay ==>
        && dailyRecords == old(dailyRecords)
        && selectedDailyRecord == Some(dailyRecords[Locate(old(dailyRecords), dateWithoutTime(datetime.value)).index].id)
      ensures datetime.Some? && !Locate(old(dailyRecords), dateWithoutTime(datetime.value)).isSameDay ==>
        var day := dateWithoutTime(datetime.value);
        var i := Locate(old(dailyRecords), day).index;
        && dailyRecords == old(dailyRecords)[..i] + [Placeholder(day, now)] + old(dailyRecords)[i..]
        && |dailyRecords| == |old(dailyRecords)| + 1
        && selectedDailyRecord == Some(-day)
      ensures SortedByDay(old(dailyRecords)) ==> SortedByDay(dailyRecords)
    {
      if datetime.Some? {
        var day := dateWithoutTime(datetime.value);
        var r := Locate(dailyRecords, day);
        if r.isSameDay {
          selectedDailyRecord := Some(dailyRecords[r.index].id);
        } else {
          var placeholder := Placeholder(day, now);
          if SortedByDay(dailyRecords) {
            InsertAtLocateKeepsOrder(dailyRecords, placeholder);
          }
          JsArray.SpliceInsert(dailyRecords, r.index, placeholder);
          dailyRecords := JsArray.Splice(dailyRecords, r.index, 0, [placeholder]);
          selectedDailyRecord := Some(dailyRecords[r.index].id);
        }
      } else {
        selectedDailyRecord := dailyRecord;
      }
    }

    /** The position of the selected record, which the caller guarantees is in the array. */
    function SelectedIndex(): (i: nat)
      reads this
      requires selectedDailyRecord.Some? && selectedDailyRecord.value in Ids(dailyRecords)
      ensures i < |dailyRecords| && dailyRecords[i].id == selectedDailyRecord.value
    {
      JsArray.IndexOf(Ids(dailyRecords), selectedDailyRecord.value)
    }

    /** `readOneDailyRecord`: asks for the selected record's day; on ok, the defined fields of the fetched record are copied onto the selected one. */
    method ReadOneDailyRecord(response: Response<DailyRecordIn>) returns (day: int, r: Response<DailyRecordIn>)
      requires selectedDailyRecord.Some? && selectedDailyRecord.value in Ids(dailyRecords)
      modifies this
      ensures day == old(dailyRecords[SelectedIndex()].day)
      ensures r == response
      ensures dummyDailyRecord == old(dummyDailyRecord)
      ensures response.Problem? ==> dailyRecords == old(dailyRecords) && selectedDailyRecord == old(selectedDailyRecord)
      ensures response.Ok? ==>
        && dailyRecords == old(dailyRecords)[old(SelectedIndex()) := CopyDefined(old(dailyRecords)[old(SelectedIndex())], response.payload)]
        && selectedDailyRecord == Some(response.payload.id)
    {
      day := dailyRecords[SelectedIndex()].day;
      if response.Ok? {
        CopyOntoSelected(response.payload);
      }
      r := response;
    }

    /**
     * `createOrUpdateOneDailyRecord`: the selected record, or nothing when
     * there is no selection, is sent; on ok, the defined fields of the answer
     * are copied onto the selected record (without one, that copy throws).
     */
    method CreateOrUpdateOneDailyRecord(response: Response<DailyRecordIn>) returns (sent: Option<DailyRecord>, r: Response<DailyRecordIn>)
      requires selectedDailyRecord.Some? ==> selectedDailyRecord.value in Ids(dailyRecords)
      requires response.Ok? ==> selectedDailyRecord.Some?
      modifies this
      ensures old(selectedDailyRecord).None? ==> sent.None?
      ensures old(selectedDailyRecord).Some? ==> sent == Some(old(dailyRecords)[old(SelectedIndex())])
      ensures sent.Some? ==> sent.value.id == old(selectedDailyRecord).value
      ensures r == response
      ensures dummyDailyRecord == old(dummyDailyRecord)
      ensures response.Problem? ==> dailyRecords == old(dailyRecords) && selectedDailyRecord == old(selectedDailyRecord)
      ensures response.Ok? ==>
        && dailyRecords == old(dailyRecords)[old(SelectedIndex()) := CopyDefined(old(dailyRecords)[old(SelectedIndex())], response.payload)]
        && selectedDailyRecord == Some(response.payload.id)
    {
      sent := if selectedDailyRecord.Some? then Some(dailyRecords[SelectedIndex()]) else None;
      if response.Ok? {
        CopyOntoSelected(response.payload);
      }
      r := response;
    }

    /** The reference follows the record it points at, whose id the copy may overwrite. */
    method CopyOntoSelected(incoming: DailyRecordIn)
      requires selectedDailyRecord.Some? && selectedDailyRecord.value in Ids(dailyRecords)
      modifies this
      ensures dummyDailyRecord == old(dummyDailyRecord)
      ensures dailyRecords == old(dailyRecords)[old(SelectedIndex()) := CopyDefined(old(dailyRecords)[old(SelectedIndex())], incoming)]
      ensures selectedDailyRecord == Some(incoming.id)
    {
      var i := SelectedIndex();
      dailyRecords := dailyRecords[i := CopyDefined(dailyRecords[i], incoming)];
      selectedDailyRecord := Some(incoming.id);
    }

    /**
     * `readManyDailyRecords`: on ok, each fetched record is handled at the
     * first position, from `lastIndex` on, whose day is not before its own.
     */
    method ReadManyDailyRecords(response: Response<seq<DailyRecordIn>>) returns (r: Response<seq<DailyRecordIn>>)
      modifies this
      ensures r == response
      ensures selectedDailyRecord == old(selectedDailyRecord) && dummyDailyRecord == old(dummyDailyRecord)
      ensures response.Problem? ==> dailyRecords == old(dailyRecords)
      ensures response.Ok? ==> dailyRecords == MergeFrom(old(dailyRecords), response.payload, 0)
      ensures response.Ok? && SortedByDay(old(dailyRecords)) && BatchSortedByDay(response.payload) ==> SortedByDay(dailyRecords)
      ensures response.Ok? ==>
        && multiset(Ids(old(dailyRecords))) <= multiset(Ids(dailyRecords))
        && multiset(Ids(dailyRecords)) <= multiset(Ids(old(dailyRecords))) + multiset(BatchIds(response.payload))
    {
      if response.Ok? {
        MergeKeepsRecords(dailyRecords, response.payload, 0);
        if SortedByDay(dailyRecords) && BatchSortedByDay(response.payload) {
          MergeKeepsOrder(dailyRecords, response.payload);
        }
        MergeBatch(response.payload);
      }
      r := response;
    }

    /** The `for` loop of `readManyDailyRecords` over a fetched batch, with its `lastIndex` cursor. */
    method MergeBatch(batch: seq<DailyRecordIn>)
      modifies this
      ensures dailyRecords == MergeFrom(old(dailyRecords), batch, 0)
      ensures selectedDailyRecord == old(selectedDailyRecord) && dummyDailyRecord == old(dummyDailyRecord)
    {
      var lastIndex: nat := 0;
      for k := 0 to |batch|
        invariant lastIndex <= |dailyRecords|
        invariant selectedDailyRecord == old(selectedDailyRecord) && dummyDailyRecord == old(dummyDailyRecord)
        invariant MergeFrom(dailyRecords, batch[k..], lastIndex) == MergeFrom(old(dailyRecords), batch, 0)
      {
        var dailyRecord := batch[k];
        var index := ScanDays(dailyRecord.day, lastIndex);
        var next := if index < |dailyRecords| then index else lastIndex;
        assert batch[k..][0] == dailyRecord && batch[k..][1..] == batch[k + 1..];
        assert MergeFrom(dailyRecords, batch[k..], lastIndex) == MergeFrom(MergeOne(dailyRecords, dailyRecord, index), batch[k + 1..], next);
        PlaceAt(dailyRecord, index);
        lastIndex := next;
      }
    }

    /** The inner `while`: from `from` on, the first index whose day is not before `day`, or the length when there is none. */
    method ScanDays(day: int, from: nat) returns (index: nat)
      requires from <= |dailyRecords|
      ensures index == ScanFrom(dailyRecords, day, from)
      ensures from <= index <= |dailyRecords|
      ensures forall k :: from <= k < index ==> dailyRecords[k].day < day
      ensures index < |dailyRecords| ==> dailyRecords[index].day >= day
    {
      index := from;
      while index < |dailyRecords|
        invariant from <= index <= |dailyRecords|
        invariant ScanFrom(dailyRecords, day, index) == ScanFrom(dailyRecords, day, from)
      {
        if dailyRecords[index].day >= day {
          break;
        }
        index := index + 1;
      }
    }

    /** The body after the scan: a record at `index` with the fetched id gets its defined fields, otherwise the fetched one is spliced in at `index`. */
    method PlaceAt(dailyRecord: DailyRecordIn, index: nat)
      requires index <= |dailyRecords|
      modifies this
      ensures dailyRecords == MergeOne(old(dailyRecords), dailyRecord, index)
      ensures selectedDailyRecord == old(selectedDailyRecord) && dummyDailyRecord == old(dummyDailyRecord)
    {
      if index < |dailyRecords| && dailyRecords[index].id == dailyRecord.id {
        dailyRecords := dailyRecords[index := CopyDefined(dailyRecords[index], dailyRecord)];
      } else {
        JsArray.SpliceInsert(dailyRecords, index, FromSnapshot(dailyRecord));
        dailyRecords := JsArray.Splice(dailyRecords, index, 0, [FromSnapshot(dailyRecord)]);
      }
    }
  }
}
