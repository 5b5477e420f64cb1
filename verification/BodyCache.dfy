/** The bounded in-memory cache of rendered bodies: ticks and two maps that together behave as a recency list. */
module BodyCacheModel {
  import opened Wrappers

  /** `rfc2822` is the rendered message, one character per byte. */
  datatype Entry = Entry(details: Option<string>, rfc2822: string)

  datatype Item = Item(id: string, entry: Entry)

  // ----- the recency list, coldest first -----

  function Total(items: seq<Item>): nat {
    if items == [] then 0 else |items[0].entry.rfc2822| + Total(items[1..])
  }

  function Without(items: seq<Item>, id: string): seq<Item> {
    if items == [] then []
    else if items[0].id == id then Without(items[1..], id)
    else [items[0]] + Without(items[1..], id)
  }

  function Find(items: seq<Item>, id: string): Option<Entry> {
    if items == [] then None
    else if items[0].id == id then Some(items[0].entry)
    else Find(items[1..], id)
  }

  /** Drop the coldest entries until the rest fits, but never the last one. */
  function Evict(items: seq<Item>, max: nat): seq<Item> {
    if Total(items) > max && |items| > 1 then Evict(items[1..], max) else items
  }

  function Inserted(items: seq<Item>, id: string, entry: Entry, max: nat): seq<Item> {
    Evict(Without(items, id) + [Item(id, entry)], max)
  }

  /** A hit becomes the most recent entry. */
  function Touched(items: seq<Item>, id: string): seq<Item> {
    match Find(items, id)
    case None => items
    case Some(entry) => Without(items, id) + [Item(id, entry)]
  }

  /** What is dropped is the shortest coldest prefix after which the cache fits or holds one entry. */
  lemma {:induction false} EvictDropsShortestPrefix(items: seq<Item>, max: nat) returns (k: nat)
    requires items != []
    ensures k < |items| && Evict(items, max) == items[k..]
    ensures Total(items[k..]) <= max || |items| - k == 1
    ensures forall j :: 0 <= j < k ==> Total(items[j..]) > max
  {
    if Total(items) > max && |items| > 1 {
      var i := EvictDropsShortestPrefix(items[1..], max);
      k := i + 1;
      assert items[1..][i..] == items[k..];
      forall j | 0 <= j < k ensures Total(items[j..]) > max {
        if j == 0 {
          assert items[0..] == items;
        } else {
          assert items[1..][j - 1..] == items[j..];
        }
      }
    } else {
      k := 0;
      assert items[0..] == items;
    }
  }

  /** After an insert the new entry is there, most recent, and the cache fits unless it holds nothing else. */
  lemma InsertBounds(items: seq<Item>, id: string, entry: Entry, max: nat)
    ensures var r := Inserted(items, id, entry, max);
            && r != [] && r[|r| - 1] == Item(id, entry)
            && (Total(r) <= max || r == [Item(id, entry)])
  {
    var all := Without(items, id) + [Item(id, entry)];
    var k := EvictDropsShortestPrefix(all, max);
    assert all[k..][|all| - k - 1] == all[|all| - 1];
    if |all| - k == 1 {
      assert all[k..] == [Item(id, entry)];
    }
  }

  // ----- refinement -----

  type Slots = map<string, (Entry, nat)>

  function IdSet(items: seq<Item>): set<string> {
    set x | x in items :: x.id
  }

  /** The map holds exactly the listed entries. */
  ghost predicate Describes(entries: Slots, items: seq<Item>) {
    && entries.Keys == IdSet(items)
    && forall x :: x in items ==> x.id in entries && entries[x.id].0 == x.entry
  }

  function TickAt(entries: Slots, items: seq<Item>, i: nat): nat
    requires i < |items| && items[i].id in entries
  {
    entries[items[i].id].1
  }

  /** Ticks increase along the list. */
  ghost predicate Increasing(entries: Slots, items: seq<Item>) {
    && (forall i :: 0 <= i < |items| ==> items[i].id in entries)
    && (forall i, j :: 0 <= i < j < |items| ==> TickAt(entries, items, i) < TickAt(entries, items, j))
  }

  /** The two maps are inverse. */
  ghost predicate Inverse(entries: Slots, order: map<nat, string>) {
    && (forall id :: id in entries ==> entries[id].1 in order && order[entries[id].1] == id)
    && (forall t :: t in order ==> order[t] in entries && entries[order[t]].1 == t)
  }

  ghost predicate Refines(entries: Slots, order: map<nat, string>, items: seq<Item>) {
    Describes(entries, items) && Increasing(entries, items) && Inverse(entries, order)
  }

  predicate Distinct(items: seq<Item>) {
    forall i, j :: 0 <= i < j < |items| ==> items[i].id != items[j].id
  }

  lemma {:induction false} WithoutAt(items: seq<Item>, k: nat)
    requires k < |items| && Distinct(items)
    ensures Without(items, items[k].id) == items[..k] + items[k + 1..]
  {
    if k == 0 {
      WithoutAbsent(items[1..], items[0].id);
    } else {
      WithoutAt(items[1..], k - 1);
      assert items[1..][..k - 1] == items[1..k] && items[1..][k..] == items[k + 1..];
      assert items[..k] == [items[0]] + items[1..k];
    }
  }

  lemma {:induction false} WithoutAbsent(items: seq<Item>, id: string)
    requires forall i :: 0 <= i < |items| ==> items[i].id != id
    ensures Without(items, id) == items
  {
    if items != [] {
      WithoutAbsent(items[1..], id);
    }
  }

  lemma {:induction false} FindAt(items: seq<Item>, k: nat)
    requires k < |items| && Distinct(items)
    ensures Find(items, items[k].id) == Some(items[k].entry)
  {
    if k > 0 {
      FindAt(items[1..], k - 1);
    }
  }

  lemma {:induction false} FindAbsent(items: seq<Item>, id: string)
    requires forall i :: 0 <= i < |items| ==> items[i].id != id
    ensures Find(items, id) == None
  {
    if items != [] {
      FindAbsent(items[1..], id);
    }
  }

  lemma {:induction false} TotalConcat(a: seq<Item>, b: seq<Item>)
    ensures Total(a + b) == Total(a) + Total(b)
  {
    if a == [] {
      assert a + b == b;
    } else {
      TotalConcat(a[1..], b);
      assert (a + b)[1..] == a[1..] + b;
    }
  }

  ghost predicate Holds(items: seq<Item>, id: string) {
    exists k :: 0 <= k < |items| && items[k].id == id
  }

  lemma ReplacedAt(items: seq<Item>, id: string, last: Item)
    requires Distinct(items)
    ensures forall k :: 0 <= k < |items| && items[k].id == id ==>
              Without(items, id) + [last] == items[..k] + items[k + 1..] + [last]
    ensures !Holds(items, id) ==> Without(items, id) + [last] == items + [last]
  {
    forall k | 0 <= k < |items| && items[k].id == id
      ensures Without(items, id) + [last] == items[..k] + items[k + 1..] + [last]
    {
      WithoutAt(items, k);
    }
    if !Holds(items, id) {
      WithoutAbsent(items, id);
    }
  }

  /** A hit moves its item, as it is, to the warm end; a miss changes nothing. */
  lemma TouchMovesToEnd(items: seq<Item>, id: string)
    requires Distinct(items)
    ensures forall k :: 0 <= k < |items| && items[k].id == id ==>
              Find(items, id) == Some(items[k].entry)
              && Touched(items, id) == items[..k] + items[k + 1..] + [items[k]]
    ensures !Holds(items, id) ==> Find(items, id) == None && Touched(items, id) == items
  {
    forall k | 0 <= k < |items| && items[k].id == id
      ensures Find(items, id) == Some(items[k].entry)
              && Touched(items, id) == items[..k] + items[k + 1..] + [items[k]]
    {
      FindAt(items, k);
      WithoutAt(items, k);
    }
    if !Holds(items, id) {
      FindAbsent(items, id);
    }
  }

  /**
   * An insertion puts the new item at the warm end in place of the one with its id, and then drops as many cold ones as
   * the budget takes, but never the new one.
   */
  lemma InsertReplaces(items: seq<Item>, id: string, entry: Entry, max: nat) returns (all: seq<Item>, dropped: nat)
    requires Distinct(items)
    ensures forall k :: 0 <= k < |items| && items[k].id == id ==>
              all == items[..k] + items[k + 1..] + [Item(id, entry)]
    ensures !Holds(items, id) ==> all == items + [Item(id, entry)]
    ensures dropped < |all| && Inserted(items, id, entry, max) == all[dropped..]
    ensures Total(all[dropped..]) <= max || dropped == |all| - 1
    ensures forall j :: 0 <= j < dropped ==> Total(all[j..]) > max
  {
    all := Without(items, id) + [Item(id, entry)];
    ReplacedAt(items, id, Item(id, entry));
    dropped := EvictDropsShortestPrefix(all, max);
  }

  lemma TotalRemove(items: seq<Item>, k: nat)
    requires k < |items|
    ensures Total(items[..k] + items[k + 1..]) == Total(items) - |items[k].entry.rfc2822|
  {
    TotalConcat(items[..k], items[k + 1..]);
    TotalConcat(items[..k], items[k..]);
    assert items == items[..k] + items[k..];
    assert items[k..][1..] == items[k + 1..];
  }

  lemma IncreasingDistinct(entries: Slots, items: seq<Item>)
    requires Increasing(entries, items)
    ensures Distinct(items)
  {
    forall i, j | 0 <= i < j < |items| ensures items[i].id != items[j].id {
      assert TickAt(entries, items, i) < TickAt(entries, items, j);
    }
  }

  /** Position of a cached id; ids in a described list are distinct. */
  lemma Locate(entries: Slots, items: seq<Item>, id: string) returns (k: nat)
    requires Describes(entries, items) && Distinct(items) && id in entries
    ensures k < |items| && items[k] == Item(id, entries[id].0)
    ensures Without(items, id) == items[..k] + items[k + 1..]
    ensures Find(items, id) == Some(entries[id].0)
  {
    var x :| x in items && x.id == id;
    k :| 0 <= k < |items| && items[k] == x;
    WithoutAt(items, k);
    FindAt(items, k);
  }

  lemma RestMembers(items: seq<Item>, k: nat, x: Item)
    requires k < |items| && Distinct(items)
    ensures x in items[..k] + items[k + 1..] <==> x in items && x.id != items[k].id
  {
    var rest := items[..k] + items[k + 1..];
    if x in items && x.id != items[k].id {
      var i :| 0 <= i < |items| && items[i] == x;
      assert rest[if i < k then i else i - 1] == x;
    }
    if x in rest {
      var i :| 0 <= i < |rest| && rest[i] == x;
      assert rest[i] == items[if i < k then i else i + 1];
    }
  }

  lemma RemoveDescribes(entries: Slots, items: seq<Item>, k: nat)
    requires k < |items| && Describes(entries, items) && Distinct(items)
    ensures Describes(entries - {items[k].id}, items[..k] + items[k + 1..])
  {
    forall x ensures x in items[..k] + items[k + 1..] <==> x in items && x.id != items[k].id {
      RestMembers(items, k, x);
    }
  }

  lemma RemoveIncreasing(entries: Slots, items: seq<Item>, k: nat)
    requires k < |items| && Increasing(entries, items)
    ensures Increasing(entries - {items[k].id}, items[..k] + items[k + 1..])
  {
    IncreasingDistinct(entries, items);
    var left, rest := entries - {items[k].id}, items[..k] + items[k + 1..];
    forall i | 0 <= i < |rest|
      ensures rest[i].id in left && TickAt(left, rest, i) == TickAt(entries, items, if i < k then i else i + 1)
    {
      assert rest[i] == items[if i < k then i else i + 1];
    }
  }

  /** Removing one id from both maps removes it from the list. */
  lemma RemoveRefines(entries: Slots, order: map<nat, string>, items: seq<Item>, id: string)
    requires Refines(entries, order, items) && id in entries
    ensures Refines(entries - {id}, order - {entries[id].1}, Without(items, id))
    ensures Total(Without(items, id)) == Total(items) - |entries[id].0.rfc2822|
  {
    IncreasingDistinct(entries, items);
    var k := Locate(entries, items, id);
    TotalRemove(items, k);
    RemoveDescribes(entries, items, k);
    RemoveIncreasing(entries, items, k);
  }

  lemma AppendDescribes(entries: Slots, items: seq<Item>, id: string, entry: Entry, tick: nat)
    requires Describes(entries, items) && id !in entries
    ensures Describes(entries[id := (entry, tick)], items + [Item(id, entry)])
  {
    var more := items + [Item(id, entry)];
    assert IdSet(more) == IdSet(items) + {id};
    assert forall x :: x in items ==> x.id in entries;
  }

  lemma AppendIncreasing(entries: Slots, items: seq<Item>, id: string, entry: Entry, tick: nat)
    requires Describes(entries, items) && Increasing(entries, items) && id !in entries
    requires forall e :: e in entries ==> entries[e].1 < tick
    ensures Increasing(entries[id := (entry, tick)], items + [Item(id, entry)])
  {
    var after, more := entries[id := (entry, tick)], items + [Item(id, entry)];
    forall i, j | 0 <= i < j < |more| ensures TickAt(after, more, i) < TickAt(after, more, j) {
      assert more[i] == items[i];
      if j < |items| {
        assert TickAt(entries, items, i) < TickAt(entries, items, j);
      }
    }
  }

  /** Adding an id with a tick above all others appends it to the list. */
  lemma AppendRefines(entries: Slots, order: map<nat, string>, items: seq<Item>, id: string, entry: Entry, tick: nat)
    requires Refines(entries, order, items) && id !in entries
    requires forall e :: e in entries ==> entries[e].1 < tick
    ensures Refines(entries[id := (entry, tick)], order[tick := id], items + [Item(id, entry)])
    ensures Total(items + [Item(id, entry)]) == Total(items) + |entry.rfc2822|
  {
    TotalConcat(items, [Item(id, entry)]);
    AppendDescribes(entries, items, id, entry, tick);
    AppendIncreasing(entries, items, id, entry, tick);
  }

  lemma AbsentId(entries: Slots, items: seq<Item>, id: string)
    requires Describes(entries, items) && id !in entries
    ensures Without(items, id) == items && Find(items, id) == None
  {
    assert forall i :: 0 <= i < |items| ==> items[i] in items;
    WithoutAbsent(items, id);
    FindAbsent(items, id);
  }

  lemma AddBack(entries: Slots, id: string, slot: (Entry, nat))
    ensures (entries - {id})[id := slot] == entries[id := slot]
  {
  }

  /** Taking an id out and adding it again with a higher tick moves it to the end of the list. */
  lemma ReplacePresent(entries: Slots, order: map<nat, string>, items: seq<Item>, id: string, entry: Entry, tick: nat)
    requires Refines(entries, order, items) && id in entries && forall e :: e in entries ==> entries[e].1 < tick
    ensures Refines(entries[id := (entry, tick)], (order - {entries[id].1})[tick := id],
                    Without(items, id) + [Item(id, entry)])
    ensures Total(Without(items, id) + [Item(id, entry)])
            == Total(items) + |entry.rfc2822| - |entries[id].0.rfc2822|
  {
    RemoveRefines(entries, order, items, id);
    AddBack(entries, id, (entry, tick));
    AppendRefines(entries - {id}, order - {entries[id].1}, Without(items, id), id, entry, tick);
  }

  /** `kept` and `freed` are what remains of the order, and the bytes given back, once an older entry is out. */
  lemma ReplaceRefines(entries: Slots, order: map<nat, string>, items: seq<Item>, id: string, entry: Entry, tick: nat,
                       kept: map<nat, string>, freed: nat)
    requires Refines(entries, order, items) && forall e :: e in entries ==> entries[e].1 < tick
    requires kept == if id in entries then order - {entries[id].1} else order
    requires freed == if id in entries then |entries[id].0.rfc2822| else 0
    ensures Refines(entries[id := (entry, tick)], kept[tick := id], Without(items, id) + [Item(id, entry)])
    ensures Total(Without(items, id) + [Item(id, entry)]) == Total(items) - freed + |entry.rfc2822|
  {
    if id in entries {
      ReplacePresent(entries, order, items, id, entry, tick);
    } else {
      AbsentId(entries, items, id);
      AppendRefines(entries, order, items, id, entry, tick);
    }
  }

  /** The lowest tick belongs to the head of the list. */
  lemma ColdestIsFirst(entries: Slots, order: map<nat, string>, items: seq<Item>, cold: nat)
    requires Refines(entries, order, items) && cold in order && forall t :: t in order ==> cold <= t
    ensures items != [] && items[0].id == order[cold] && Without(items, order[cold]) == items[1..]
  {
    IncreasingDistinct(entries, items);
    var k := Locate(entries, items, order[cold]);
    assert TickAt(entries, items, 0) in order;
    assert 0 < k ==> TickAt(entries, items, 0) < TickAt(entries, items, k);
    assert items[..0] + items[1..] == items[1..];
  }

  lemma CoolestExists(entries: Slots, order: map<nat, string>, items: seq<Item>)
    requires Refines(entries, order, items) && items != []
    ensures exists cold :: cold in order && forall t :: t in order ==> cold <= t
  {
    IncreasingDistinct(entries, items);
    var cold := TickAt(entries, items, 0);
    forall t | t in order ensures cold <= t {
      var k := Locate(entries, items, order[t]);
      assert 0 < k ==> TickAt(entries, items, 0) < TickAt(entries, items, k);
    }
    assert cold in order;
  }

  lemma CountWithout(entries: Slots, id: string)
    requires id in entries
    ensures |entries| == |entries - {id}| + 1
  {
    assert entries.Keys == (entries - {id}).Keys + {id};
    assert |entries| == |entries.Keys| && |entries - {id}| == |(entries - {id}).Keys|;
  }

  lemma {:induction false} EntriesCount(entries: Slots, items: seq<Item>)
    requires Describes(entries, items) && Distinct(items)
    ensures |entries| == |items|
    decreases |items|
  {
    if items == [] {
      assert entries == map[];
    } else {
      var id := items[0].id;
      RemoveDescribes(entries, items, 0);
      assert items[..0] + items[1..] == items[1..] && items[0] in items;
      EntriesCount(entries - {id}, items[1..]);
      CountWithout(entries, id);
    }
  }

  class BodyCache {
    var entries: Slots
    var order: map<nat, string>
    var totalBytes: int
    var tick: nat
    const maxBytes: nat
    /** The bodies on disk, once the store is wired. */
    var disk: Option<map<string, string>>
    /** The recency list the maps stand for. */
    ghost var items: seq<Item>

    ghost predicate Valid()
      reads this
    {
      && Refines(entries, order, items)
      && (forall id :: id in entries ==> entries[id].1 <= tick)
      && totalBytes == Total(items)
    }

    constructor (maxBytes: nat)
      ensures Valid() && items == [] && disk == None && this.maxBytes == maxBytes
    {
      this.maxBytes := maxBytes;
      entries, order, totalBytes, tick, disk, items := map[], map[], 0, 0, None, [];
    }

    /** Take the coldest entry out of both maps. */
    method DropColdest(cold: nat)
      requires Valid() && cold in order && forall t :: t in order ==> cold <= t
      modifies this`entries, this`order, this`totalBytes, this`items
      ensures Valid() && old(items) != [] && items == old(items)[1..]
    {
      var id := order[cold];
      ColdestIsFirst(entries, order, items, cold);
      RemoveRefines(entries, order, items, id);
      order := order - {cold};
      totalBytes := totalBytes - |entries[id].0.rfc2822|;
      entries := entries - {id};
      items := items[1..];
    }

    /** Put a body at the warm end, in place of an older one, and shrink to the budget. */
    method Insert(id: string, entry: Entry)
      requires Valid()
      modifies this`entries, this`order, this`totalBytes, this`tick, this`items
      ensures Valid() && items == Inserted(old(items), id, entry, maxBytes)
    {
      tick := tick + 1;
      Refresh(id, entry);
      EvictCold(id);
    }

    /**
     * Evict coldest-first while over budget and more than one entry is left. The source also stops at the entry
     * inserted last; that entry is never the coldest of two or more.
     */
    method EvictCold(ghost newest: string)
      requires Valid() && items != [] && items[|items| - 1].id == newest
      modifies this`entries, this`order, this`totalBytes, this`items
      ensures Valid() && items == Evict(old(items), maxBytes)
    {
      while totalBytes > maxBytes && |entries| > 1
        invariant Valid() && items != [] && items[|items| - 1].id == newest
        invariant Evict(items, maxBytes) == Evict(old(items), maxBytes)
        decreases |items|
      {
        Count();
        CoolestExists(entries, order, items);
        var cold :| cold in order && forall t :: t in order ==> cold <= t;
        assert order[cold] != newest by {
          IncreasingDistinct(entries, items);
          ColdestIsFirst(entries, order, items, cold);
        }
        DropColdest(cold);
      }
      Count();
    }

    lemma Count()
      requires Valid()
      ensures |entries| == |items|
    {
      IncreasingDistinct(entries, items);
      EntriesCount(entries, items);
    }

    /** Put `id` at the warm end with the current tick, replacing an older entry of the same id. */
    method Refresh(id: string, entry: Entry)
      requires Refines(entries, order, items) && totalBytes == Total(items)
      requires forall e :: e in entries ==> entries[e].1 < tick
      modifies this`entries, this`order, this`totalBytes, this`items
      ensures Valid() && items == Without(old(items), id) + [Item(id, entry)]
    {
      var kept, freed := order, 0;
      if id in entries {
        kept, freed := order - {entries[id].1}, |entries[id].0.rfc2822|;
      }
      ReplaceRefines(entries, order, items, id, entry, tick, kept, freed);
      entries, order, totalBytes, items := entries[id := (entry, tick)], kept[tick := id],
        totalBytes - freed + |entry.rfc2822|, Without(items, id) + [Item(id, entry)];
    }

    /** Lookup without touching the disk; a hit becomes the most recent entry. */
    method Cached(id: string) returns (r: Option<Entry>)
      requires Valid()
      modifies this`entries, this`order, this`totalBytes, this`tick, this`items
      ensures Valid() && items == Touched(old(items), id) && r == Find(old(items), id)
    {
      tick := tick + 1;
      if id !in entries {
        AbsentId(entries, items, id);
        return None;
      }
      var entry := entries[id].0;
      IncreasingDistinct(entries, items);
      ghost var _ := Locate(entries, items, id);
      Refresh(id, entry);
      return Some(entry);
    }

    /** Replace the rendered body of a cached entry; its details stay. Nothing happens on a miss. */
    method UpdateRfc2822(id: string, rfc2822: string)
      requires Valid()
      modifies this`entries, this`order, this`totalBytes, this`tick, this`items
      ensures Valid()
      ensures items == match Find(old(items), id)
                       case None => old(items)
                       case Some(entry) => Inserted(old(items), id, entry.(rfc2822 := rfc2822), maxBytes)
    {
      if id in entries {
        IncreasingDistinct(entries, items);
        ghost var _ := Locate(entries, items, id);
        Insert(id, entries[id].0.(rfc2822 := rfc2822));
      } else {
        AbsentId(entries, items, id);
      }
    }

    /** Lookup with disk fallback: a body read from disk is cached without its details. */
    method Get(id: string) returns (r: Option<Entry>)
      requires Valid()
      modifies this`entries, this`order, this`totalBytes, this`tick, this`items
      ensures Valid()
      ensures Find(old(items), id).Some? ==> r == Find(old(items), id) && items == Touched(old(items), id)
      ensures Find(old(items), id).None? && (disk.None? || id !in disk.value) ==> r == None && items == old(items)
      ensures Find(old(items), id).None? && disk.Some? && id in disk.value ==>
                && r == Some(Entry(None, disk.value[id]))
                && items == Touched(Inserted(old(items), id, Entry(None, disk.value[id]), maxBytes), id)
    {
      r := Cached(id);
      if r.Some? {
        return;
      }
      if disk.None? || id !in disk.value {
        return None;
      }
      var entry := Entry(None, disk.value[id]);
      InsertBounds(items, id, entry, maxBytes);
      Insert(id, entry);
      ghost var last := items[|items| - 1];
      assert last.id in entries;
      IncreasingDistinct(entries, items);
      ghost var _ := Locate(entries, items, id);
      r := Cached(id);
    }
  }
}
