/** Persistent storage: a key-value map on flash with a marker entry that tells it has been
    initialised. Boots can be interrupted anywhere. */
module Storage {
  import opened Bytes

  datatype Key = Marker | RecordData | ConfigSettings

  /** A fetch fails on flash that is not a well-formed map. */
  datatype Flash<V> = Unreadable | Readable(items: map<Key, V>)
  {
    predicate Marked() {
      Readable? && Marker in items
    }
  }

  /** Where an initialisation is cut short: while erasing, leaving any content; between the erase and
      the marker, or while the marker is written, which then is not there. */
  datatype Cut<V> = Never | InErase(left: Flash<V>) | AfterErase

  /** A boot, or an entry written by the running system. */
  datatype Event<V> =
    | Boot(cut: Cut<V>)
    | Write(key: Key, value: V)

  /** `ensure_initialized`: no marker, or a failing fetch, means erase and store the marker. */
  function Initialized<V>(f: Flash<V>, marker: V, cut: Cut<V>): Flash<V> {
    if f.Marked() then f
    else
      match cut
      case Never => Readable(map[Marker := marker])
      case InErase(left) => left
      case AfterErase => Readable(map[])
  }

  predicate Completes<V>(f: Flash<V>, cut: Cut<V>) {
    f.Marked() || cut.Never?
  }

  function Change<V>(f: Flash<V>, marker: V, e: Event<V>): Flash<V> {
    match e
    case Boot(cut) => Initialized(f, marker, cut)
    case Write(key, value) => if f.Readable? then f.(items := f.items[key := value]) else f
  }

  function After<V>(f: Flash<V>, marker: V, es: seq<Event<V>>, n: nat): Flash<V>
    requires n <= |es|
  {
    if n == 0 then f else Change(After(f, marker, es, n - 1), marker, es[n - 1])
  }

  /** An erase that is cut short may leave any content, but it cannot put a marker where a fetch would
      have told that there is none. */
  predicate Possible<V>(f: Flash<V>, cut: Cut<V>) {
    f.Readable? && !f.Marked() && cut.InErase? ==> !cut.left.Marked()
  }

  /** Entries are written only by a system whose initialisation has completed. */
  ghost predicate Legal<V(!new)>(f: Flash<V>, marker: V, es: seq<Event<V>>) {
    && (forall n | 0 <= n < |es| && es[n].Write? ::
          n > 0 && (es[n - 1].Boot? ==> Completes(After(f, marker, es, n - 1), es[n - 1].cut)))
    && (forall n | 0 <= n < |es| && es[n].Boot? :: Possible(After(f, marker, es, n), es[n].cut))
  }

  /** The value of `key` after the writes among events `m` to `n`, on top of `items`. */
  function Written<V>(items: map<Key, V>, es: seq<Event<V>>, m: nat, n: nat): map<Key, V>
    requires m <= n <= |es|
  {
    if m == n then items
    else
      var before := Written(items, es, m, n - 1);
      match es[n - 1] case Boot(_) => before case Write(key, value) => before[key := value]
  }

  /** Every entry but the marker is still there, with its value. */
  predicate Keeps<V(==)>(f: Flash<V>, f': Flash<V>) {
    && f.Readable? && f'.Readable?
    && forall key | key in f.items && key != Marker :: key in f'.items && f'.items[key] == f.items[key]
  }

  /** A completed boot leaves the marker, and keeps the other entries exactly if it finds the marker or
      there are none; if it does not find the marker, the marker is all there is. */
  lemma BootKeepsIffMarked<V>(f: Flash<V>, marker: V, cut: Cut<V>)
    requires Completes(f, cut)
    ensures Initialized(f, marker, cut).Marked()
    ensures Keeps(f, Initialized(f, marker, cut)) <==>
            (f.Readable? && Marker in f.items) || f == Readable(map[])
    ensures !(f.Readable? && Marker in f.items) ==> Initialized(f, marker, cut).items == map[Marker := marker]
  {
    if !f.Marked() && Keeps(f, Initialized(f, marker, cut)) {
      assert forall key | key in f.items :: key == Marker;
      assert f.items == map[];
    }
  }

  /** Once the marker is readable, nothing stored is lost: whatever boots follow and wherever they
      are cut short, flash is what was there plus the writes since, entry by entry. */
  lemma {:induction false} MarkedNeverErased<V(!new)>(f: Flash<V>, marker: V, es: seq<Event<V>>, m: nat, n: nat)
    requires Legal(f, marker, es) && m <= n <= |es|
    requires After(f, marker, es, m).Marked()
    ensures After(f, marker, es, n) == Readable(Written(After(f, marker, es, m).items, es, m, n))
    ensures After(f, marker, es, n).Marked()
  {
    if m < n {
      MarkedNeverErased(f, marker, es, m, n - 1);
    }
  }

  function Fresh<V>(marker: V): Flash<V> {
    Readable(map[Marker := marker])
  }

  /** In boot `k` the erase is cut short and leaves a readable marker. */
  predicate FalselyMarked<V>(f: Flash<V>, marker: V, es: seq<Event<V>>, k: nat)
    requires k < |es|
  {
    !After(f, marker, es, k).Marked() && es[k].Boot? && es[k].cut.InErase? && es[k].cut.left.Marked()
  }

  /** Boots on unmarked flash, the last of which completes, leave a fresh store if and only if no
      erase that is cut short leaves a marker with anything else. Only unreadable flash can come out of
      an erase that way. */
  lemma FreshIff<V(!new)>(f: Flash<V>, marker: V, es: seq<Event<V>>)
    requires Legal(f, marker, es)
    requires |es| > 0 && (forall k | 0 <= k < |es| :: es[k].Boot?) && !f.Marked()
    requires Completes(After(f, marker, es, |es| - 1), es[|es| - 1].cut)
    ensures After(f, marker, es, |es|) == Fresh(marker) <==>
            forall k | 0 <= k < |es| && FalselyMarked(f, marker, es, k) :: es[k].cut.left == Fresh(marker)
    ensures forall k | 0 <= k < |es| && FalselyMarked(f, marker, es, k) :: After(f, marker, es, k).Unreadable?
  {
    FreshUnlessFalselyMarked(f, marker, es);
    forall k | 0 <= k < |es| && FalselyMarked(f, marker, es, k)
      ensures After(f, marker, es, k).Unreadable?
    {
      OnlyUnreadableFalselyMarked(f, marker, es, k);
    }
  }

  lemma OnlyUnreadableFalselyMarked<V(!new)>(f: Flash<V>, marker: V, es: seq<Event<V>>, k: nat)
    requires Legal(f, marker, es) && k < |es| && FalselyMarked(f, marker, es, k)
    ensures After(f, marker, es, k).Unreadable?
  {
    assert Possible(After(f, marker, es, k), es[k].cut);
  }

  lemma FreshUnlessFalselyMarked<V>(f: Flash<V>, marker: V, es: seq<Event<V>>)
    requires |es| > 0 && (forall k | 0 <= k < |es| :: es[k].Boot?) && !f.Marked()
    requires Completes(After(f, marker, es, |es| - 1), es[|es| - 1].cut)
    ensures After(f, marker, es, |es|) == Fresh(marker) <==>
            forall k | 0 <= k < |es| && FalselyMarked(f, marker, es, k) :: es[k].cut.left == Fresh(marker)
  {
    var end := After(f, marker, es, |es|);
    BootKeepsIffMarked(After(f, marker, es, |es| - 1), marker, es[|es| - 1].cut);
    forall k | 0 <= k < |es| && FalselyMarked(f, marker, es, k)
      ensures end == es[k].cut.left
    {
      MarkedStays(f, marker, es, k + 1, |es|);
    }
    if end != Fresh(marker) {
      var k := FalseMark(f, marker, es, |es|);
    }
  }

  /** Otherwise old content passes for initialised: here an entry from before the erase. */
  lemma EraseCutShort<V(!new)>(marker: V, stale: V)
    ensures var left := Readable(map[Marker := marker, RecordData := stale]);
            var es := [Boot(InErase(left)), Boot(Never)];
            && Legal(Unreadable, marker, es) && FalselyMarked(Unreadable, marker, es, 0)
            && After(Unreadable, marker, es, 2) == left
  {
    var left := Readable(map[Marker := marker, RecordData := stale]);
    var es := [Boot(InErase(left)), Boot(Never)];
    assert After(Unreadable, marker, es, 0) == Unreadable;
    assert After(Unreadable, marker, es, 1) == left;
  }

  /** Flash that is marked, and not by a completed boot, was marked by an erase cut short. */
  lemma {:induction false} FalseMark<V>(f: Flash<V>, marker: V, es: seq<Event<V>>, n: nat) returns (k: nat)
    requires n <= |es| && (forall k | 0 <= k < n :: es[k].Boot?) && !f.Marked()
    requires After(f, marker, es, n).Marked() && After(f, marker, es, n) != Fresh(marker)
    ensures k < n && FalselyMarked(f, marker, es, k) && After(f, marker, es, n) == es[k].cut.left
  {
    if After(f, marker, es, n - 1).Marked() {
      k := FalseMark(f, marker, es, n - 1);
    } else {
      k := n - 1;
    }
  }

  lemma {:induction false} MarkedStays<V>(f: Flash<V>, marker: V, es: seq<Event<V>>, m: nat, n: nat)
    requires m <= n <= |es| && (forall k | m <= k < n :: es[k].Boot?)
    requires After(f, marker, es, m).Marked()
    ensures After(f, marker, es, n) == After(f, marker, es, m)
  {
    if m < n {
      MarkedStays(f, marker, es, m, n - 1);
    }
  }

  /** Every write is to marked flash, so none is lost to a later initialisation. */
  lemma {:induction false} WritesAreToMarkedFlash<V(!new)>(f: Flash<V>, marker: V, es: seq<Event<V>>, n: nat)
    requires Legal(f, marker, es) && n < |es| && es[n].Write?
    ensures After(f, marker, es, n).Marked()
    ensures After(f, marker, es, n + 1).Marked() && After(f, marker, es, n + 1).items[es[n].key] == es[n].value
  {
    if es[n - 1].Boot? {
      BootKeepsIffMarked(After(f, marker, es, n - 1), marker, es[n - 1].cut);
    } else {
      WritesAreToMarkedFlash(f, marker, es, n - 1);
    }
  }

  /** Entries do not interfere: writes to other keys leave an entry as it is. */
  lemma {:induction false} OtherKeysUntouched<V>(items: map<Key, V>, es: seq<Event<V>>, m: nat, n: nat, key: Key)
    requires m <= n <= |es| && key in items
    requires forall k | m <= k < n && es[k].Write? :: es[k].key != key
    ensures key in Written(items, es, m, n) && Written(items, es, m, n)[key] == items[key]
  {
    if m < n {
      OtherKeysUntouched(items, es, m, n - 1, key);
    }
  }

  /** The store as its users rely on it: the last value written to a key is what a later boot
      fetches, whatever other keys are written and wherever the boots in between are cut short. */
  lemma LastWriteReadsBack<V(!new)>(f: Flash<V>, marker: V, es: seq<Event<V>>, k: nat, n: nat)
    requires Legal(f, marker, es) && k < n <= |es| && es[k].Write?
    requires forall j | k < j < n && es[j].Write? :: es[j].key != es[k].key
    ensures After(f, marker, es, n).Readable?
    ensures es[k].key in After(f, marker, es, n).items && After(f, marker, es, n).items[es[k].key] == es[k].value
  {
    WritesAreToMarkedFlash(f, marker, es, k);
    MarkedNeverErased(f, marker, es, k + 1, n);
    OtherKeysUntouched(After(f, marker, es, k + 1).items, es, k + 1, n, es[k].key);
  }

  // ----- Keys -----

  datatype KeyError = BufferTooSmall | InvalidFormat | InvalidData

  datatype KeyResult<T> = Ok(value: T) | Err(error: KeyError)

  function KeyByte(key: Key): Byte {
    match key case Marker => 0x01 case RecordData => 0x02 case ConfigSettings => 0x03
  }

  /** `deserialize_from`. */
  function Deserialized(buffer: seq<Byte>): KeyResult<(Key, nat)> {
    if buffer == [] then Err(InvalidFormat)
    else if buffer[0] == 0x01 then Ok((Marker, 1))
    else if buffer[0] == 0x02 then Ok((RecordData, 1))
    else if buffer[0] == 0x03 then Ok((ConfigSettings, 1))
    else Err(InvalidData)
  }

  /** Exactly the three bytes are accepted, each as its own key, whatever follows. */
  lemma KeyBytes(buffer: seq<Byte>)
    requires buffer != []
    ensures Deserialized(buffer).Ok? <==> 1 <= buffer[0] <= 3
    ensures Deserialized(buffer) == match buffer[0]
                                    case 1 => Ok((Marker, 1))
                                    case 2 => Ok((RecordData, 1))
                                    case 3 => Ok((ConfigSettings, 1))
                                    case _ => Err(InvalidData)
    ensures forall key :: Deserialized(buffer) == Ok((key, 1)) <==> buffer[0] == KeyByte(key)
  {
  }

  /** `serialize_into`: the buffer's first byte, or an error and no change. Reading the buffer back,
      whatever follows the key, gives the key and its length. */
  method SerializeInto(key: Key, buffer: array<Byte>) returns (r: KeyResult<nat>)
    modifies buffer
    ensures buffer.Length == 0 ==> r == Err(BufferTooSmall)
    ensures buffer.Length > 0 ==> r == Ok(1) && buffer[..] == old(buffer[..])[0 := KeyByte(key)]
    ensures buffer.Length > 0 ==> Deserialized(buffer[..]) == Ok((key, 1))
  {
    if buffer.Length == 0 {
      return Err(BufferTooSmall);
    }
    buffer[0] := KeyByte(key);
    r := Ok(1);
  }

  // ----- The object -----

  class Store<V> {
    var flash: Flash<V>
    const marker: V

    constructor (flash: Flash<V>, marker: V)
      ensures this.flash == flash && this.marker == marker
    {
      this.flash, this.marker := flash, marker;
    }

    /** `ensure_initialized`, cut short where `cut` says. Returns whether it completed. */
    method EnsureInitialized(cut: Cut<V>) returns (completed: bool)
      modifies this
      ensures completed == Completes(old(flash), cut)
      ensures flash == Initialized(old(flash), marker, cut)
    {
      var found := Fetch(Marker);
      if found == Ok(true) {
        return true;
      }
      if cut.InErase? {
        flash := cut.left;
        return false;
      }
      flash := Readable(map[]);
      if cut.AfterErase? {
        return false;
      }
      flash := flash.(items := flash.items[Marker := marker]);
      completed := true;
    }

    /** `store`: set one entry; an error and no change on unreadable flash. */
    method StoreItem(key: Key, value: V) returns (r: KeyResult<()>)
      modifies this
      ensures r.Ok? <==> old(flash).Readable?
      ensures flash == Change(old(flash), marker, Write(key, value))
    {
      if flash.Unreadable? {
        return Err(InvalidData);
      }
      flash := flash.(items := flash.items[key := value]);
      r := Ok(());
    }

    /** Whether `key` is present; an error on unreadable flash. */
    method Fetch(key: Key) returns (r: KeyResult<bool>)
      ensures r == if flash.Unreadable? then Err(InvalidData) else Ok(key in flash.items)
    {
      r := if flash.Unreadable? then Err(InvalidData) else Ok(key in flash.items);
    }
  }
}
