/**
 * The booking store of `src/utils/storage.js`: one browser-storage slot,
 * `'bookings'`, holding a JSON array of booking objects, read and rewritten
 * by `saveBooking` and read by `loadBookings`.
 *
 * The slot's text is represented by what `JSON.parse` makes of it; the clock
 * (`Date.now()`), the ISO time string (`new Date().toISOString()`) and whether
 * `setItem` throws (a full or blocked storage area) are inputs.
 */
module Storage {
  import opened Wrappers
  import opened Json

  const IdKey: string := "id"
  const CreatedAtKey: string := "createdAt"

  /** What `localStorage.getItem('bookings')` holds. */
  datatype Slot =
    | Absent                          // getItem returns null
    | Empty                           // the empty string
    | Bookings(records: seq<Record>)  // a JSON array of booking objects
    | NonArray(value: Scalar)         // valid JSON that is not an array, e.g. `{}` or `null`
    | Unparseable                     // text that JSON.parse rejects

  /** The outcome of `JSON.parse(localStorage.getItem('bookings') || '[]')`. */
  datatype Parsed = SyntaxError | Array(records: seq<Record>) | Other(value: Scalar)

  function Parse(slot: Slot): Parsed {
    match slot
    case Absent => Array([])   // null || '[]'
    case Empty => Array([])    // '' || '[]'
    case Bookings(rs) => Array(rs)
    case NonArray(v) => Other(v)
    case Unparseable => SyntaxError
  }

  /**
   * The new record `{ ...bookingData, id: now, createdAt: iso }`: every field
   * of the caller's data, with `id` and `createdAt` overridden.
   */
  function Stamp(bookingData: Record, now: int, iso: string): (r: Record)
    ensures r.Keys == bookingData.Keys + {IdKey, CreatedAtKey}
    ensures r[IdKey] == Num(now) && r[CreatedAtKey] == Str(iso)
    ensures forall k :: k in bookingData && k != IdKey && k != CreatedAtKey ==> r[k] == bookingData[k]
  {
    bookingData[IdKey := Num(now)][CreatedAtKey := Str(iso)]
  }

  /** What one call of `saveBooking` leaves in the slot, and what it returns (`None` is `null`). */
  datatype SaveResult = SaveResult(slot: Slot, saved: Option<Record>)

  /**
   * One call of `saveBooking(bookingData)`. Without a browser the reference to
   * `localStorage` throws; a slot that does not parse throws in `JSON.parse`;
   * a parsed non-array has no `push`; a failing `setItem` throws after the
   * append. Every one of these is caught and gives `null` with the slot as it was.
   */
  function Save(slot: Slot, browser: bool, bookingData: Record, now: int, iso: string, writeFails: bool): (res: SaveResult)
    ensures res.saved.Some? <==> browser && !writeFails && (slot.Absent? || slot.Empty? || slot.Bookings?)
    ensures res.saved.Some? ==> res.saved.value == Stamp(bookingData, now, iso)
    ensures res.saved.Some? ==> res.slot == Bookings((if slot.Bookings? then slot.records else []) + [res.saved.value])
    ensures res.saved.None? ==> res.slot == slot
  {
    if !browser then SaveResult(slot, None)
    else
      match Parse(slot)
      case SyntaxError => SaveResult(slot, None)
      case Other(_) => SaveResult(slot, None)
      case Array(rs) =>
        var newBooking := Stamp(bookingData, now, iso);
        if writeFails then SaveResult(slot, None)
        else SaveResult(Bookings(rs + [newBooking]), Some(newBooking))
  }

  /** The records of an array, as the JavaScript objects `JSON.parse` gives back. */
  function Objects(rs: seq<Record>): seq<Value> {
    seq(|rs|, i requires 0 <= i < |rs| => Obj(rs[i]))
  }

  /**
   * `loadBookings()` as written: whatever `JSON.parse` returns, so a slot
   * holding `{}` or `null` comes back as that value and not as an array.
   */
  function LoadAsWritten(browser: bool, slot: Slot): Value {
    if !browser then Arr([])
    else
      match Parse(slot)
      case SyntaxError => Arr([])
      case Array(rs) => Arr(Objects(rs))
      case Other(v) => v
  }

  /**
   * `loadBookings()` with the result its documentation promises: the stored
   * records in insertion order, or `[]` without a browser and for an absent,
   * empty, unparseable or non-array slot.
   */
  function Load(browser: bool, slot: Slot): (bookings: seq<Record>)
    ensures browser && slot.Bookings? ==> bookings == slot.records
    ensures !(browser && slot.Bookings?) ==> bookings == []
  {
    if !browser then []
    else
      match Parse(slot)
      case Array(rs) => rs
      case _ => []
  }

  /** The stored slot, written back by the methods that the page components call. */
  class BookingStore {
    /** Whether there is a `window`, i.e. the code runs in a browser. */
    const browser: bool
    var slot: Slot

    constructor (browser: bool, slot: Slot)
      ensures this.browser == browser && this.slot == slot
    {
      this.browser := browser;
      this.slot := slot;
    }

    /** `saveBooking(bookingData)`, with its clock readings and the fate of `setItem` as inputs. */
    method SaveBooking(bookingData: Record, now: int, iso: string, writeFails: bool) returns (saved: Option<Record>)
      modifies this
      ensures SaveResult(slot, saved) == Save(old(slot), browser, bookingData, now, iso, writeFails)
    {
      if !browser {
        return None;
      }
      var parsed := Parse(slot);
      if !parsed.Array? {
        return None;
      }
      var bookings := parsed.records;
      var newBooking := Stamp(bookingData, now, iso);
      bookings := bookings + [newBooking];
      if writeFails {
        return None;
      }
      slot := Bookings(bookings);
      return Some(newBooking);
    }

    /** `loadBookings()`; it reads the slot and changes nothing. */
    method LoadBookings() returns (bookings: seq<Record>)
      ensures bookings == Load(browser, slot)
    {
      if !browser {
        return [];
      }
      var parsed := Parse(slot);
      match parsed
      case Array(rs) => bookings := rs;
      case _ => bookings := [];
    }
  }

  /** An absent or empty slot counts as `[]`: a successful save leaves exactly the new record. */
  lemma SaveIntoFreshSlot(slot: Slot, bookingData: Record, now: int, iso: string)
    requires slot == Absent || slot == Empty
    ensures Save(slot, true, bookingData, now, iso, false) ==
            SaveResult(Bookings([Stamp(bookingData, now, iso)]), Some(Stamp(bookingData, now, iso)))
    ensures Load(true, Save(slot, true, bookingData, now, iso, false).slot) == [Stamp(bookingData, now, iso)]
  {
  }

  /** A corrupt slot, a failing write or a missing browser gives `null` and leaves the slot alone. */
  lemma SaveFailsWithoutDamage(slot: Slot, browser: bool, bookingData: Record, now: int, iso: string, writeFails: bool)
    requires slot.Unparseable? || slot.NonArray? || writeFails || !browser
    ensures Save(slot, browser, bookingData, now, iso, writeFails) == SaveResult(slot, None)
  {
  }

  /**
   * Round trip: after a successful save, loading gives the earlier records,
   * unchanged and in order, followed by the returned record.
   */
  lemma SaveThenLoad(slot: Slot, bookingData: Record, now: int, iso: string)
    requires !slot.Unparseable? && !slot.NonArray?
    ensures Save(slot, true, bookingData, now, iso, false).saved.Some?
    ensures Load(true, Save(slot, true, bookingData, now, iso, false).slot) ==
            Load(true, slot) + [Save(slot, true, bookingData, now, iso, false).saved.value]
  {
  }

  /** The documented `loadBookings` differs from the written one only on a parsed non-array. */
  lemma LoadAgreesWithAsWritten(browser: bool, slot: Slot)
    ensures !(browser && slot.NonArray?) ==> LoadAsWritten(browser, slot) == Arr(Objects(Load(browser, slot)))
    ensures browser && slot.NonArray? ==> LoadAsWritten(browser, slot) == slot.value && Load(browser, slot) == []
  {
  }

  /** A slot holding the text `{}`: the written `loadBookings` returns an object, not an array. */
  lemma LoadAsWrittenReturnsObject()
    ensures LoadAsWritten(true, NonArray(Obj(map[]))) == Obj(map[])
    ensures !LoadAsWritten(true, NonArray(Obj(map[]))).Arr?
    ensures Load(true, NonArray(Obj(map[]))) == []
  {
  }

  /** The caller's data and the clock readings of one `saveBooking` call. */
  datatype Request = Request(bookingData: Record, now: int, iso: string)

  /** Successive successful saves in a browser, in the given order. */
  function SaveAll(slot: Slot, reqs: seq<Request>): Slot
    decreases |reqs|
  {
    if reqs == [] then slot
    else SaveAll(Save(slot, true, reqs[0].bookingData, reqs[0].now, reqs[0].iso, false).slot, reqs[1..])
  }

  /** The records that saving `reqs` creates, one per request. */
  function Stamped(reqs: seq<Request>): seq<Record> {
    seq(|reqs|, i requires 0 <= i < |reqs| => Stamp(reqs[i].bookingData, reqs[i].now, reqs[i].iso))
  }

  /** One successful save, as the induction below uses it. */
  lemma SaveStep(slot: Slot, r: Request)
    requires !slot.Unparseable? && !slot.NonArray?
    ensures Save(slot, true, r.bookingData, r.now, r.iso, false).slot.Bookings?
    ensures Load(true, Save(slot, true, r.bookingData, r.now, r.iso, false).slot) ==
            Load(true, slot) + [Stamp(r.bookingData, r.now, r.iso)]
  {
  }

  /** Saving N requests appends N records, in insertion order, after the ones already stored. */
  lemma {:induction false} SaveAllAppends(slot: Slot, reqs: seq<Request>)
    requires !slot.Unparseable? && !slot.NonArray?
    ensures SaveAll(slot, reqs).Bookings? || reqs == []
    ensures Load(true, SaveAll(slot, reqs)) == Load(true, slot) + Stamped(reqs)
    decreases |reqs|
  {
    if reqs != [] {
      var r := reqs[0];
      var next := Save(slot, true, r.bookingData, r.now, r.iso, false).slot;
      SaveStep(slot, r);
      assert SaveAll(slot, reqs) == SaveAll(next, reqs[1..]);
      SaveAllAppends(next, reqs[1..]);
      assert Stamped(reqs) == [Stamp(r.bookingData, r.now, r.iso)] + Stamped(reqs[1..]);
    }
  }

  /** Id of a stored record, `b.id`. */
  function IdOf(b: Record): Option<Value> {
    Get(b, IdKey)
  }

  /** Pairwise distinct ids of a sequence of records. */
  predicate DistinctIds(bs: seq<Record>) {
    forall i, j :: 0 <= i < j < |bs| ==> IdOf(bs[i]) != IdOf(bs[j])
  }

  /** Pairwise distinct clock readings of a sequence of requests. */
  predicate DistinctClocks(reqs: seq<Request>) {
    forall i, j :: 0 <= i < j < |reqs| ==> reqs[i].now != reqs[j].now
  }

  /** Each created record's id is the clock reading of its request. */
  lemma StampedIds(reqs: seq<Request>)
    ensures forall i :: 0 <= i < |reqs| ==> IdOf(Stamped(reqs)[i]) == Some(Num(reqs[i].now))
  {
    forall i | 0 <= i < |reqs| ensures IdOf(Stamped(reqs)[i]) == Some(Num(reqs[i].now)) {
      var r := Stamp(reqs[i].bookingData, reqs[i].now, reqs[i].iso);
      assert Stamped(reqs)[i] == r;
      assert IdKey in r && r[IdKey] == Num(reqs[i].now);
    }
  }

  /** The created records have distinct ids exactly when the requests have distinct clocks. */
  lemma IdsDistinctIff(reqs: seq<Request>)
    ensures DistinctIds(Stamped(reqs)) <==> DistinctClocks(reqs)
  {
    StampedIds(reqs);
  }

  /**
   * Ids are distinct exactly when the clock readings are: `saveBooking`
   * copies `Date.now()` and does nothing to make ids unique.
   */
  lemma SavedIdsDistinctIff(reqs: seq<Request>)
    ensures |Load(true, SaveAll(Absent, reqs))| == |reqs|
    ensures DistinctIds(Load(true, SaveAll(Absent, reqs))) <==> DistinctClocks(reqs)
  {
    SaveAllAppends(Absent, reqs);
    var stored := Load(true, SaveAll(Absent, reqs));
    assert stored == Stamped(reqs);
    IdsDistinctIff(reqs);
  }

  /** Two saves within the same millisecond store two records with the same id. */
  lemma SameClockSameId(a: Record, b: Record, now: int, iso1: string, iso2: string)
    ensures |Load(true, SaveAll(Absent, [Request(a, now, iso1), Request(b, now, iso2)]))| == 2
    ensures IdOf(Load(true, SaveAll(Absent, [Request(a, now, iso1), Request(b, now, iso2)]))[0]) ==
            IdOf(Load(true, SaveAll(Absent, [Request(a, now, iso1), Request(b, now, iso2)]))[1])
  {
    SavedIdsDistinctIff([Request(a, now, iso1), Request(b, now, iso2)]);
  }
}
