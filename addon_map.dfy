/** The wizard's add-on selection, a JavaScript `Map` from item id to
    (item, quantity). A `Map` remembers insertion order: `set` on a present key
    keeps its position, `set` on a new key appends, `delete` removes the entry.
    It is modelled as a sequence of lines keyed by `line.item.id`. */
module AddOnMap {
  import opened Types

  /** No two lines share a key. */
  predicate KeysDistinct(m: seq<AddOnLine>) {
    forall i, j :: 0 <= i < j < |m| ==> m[i].item.id != m[j].item.id
  }

  /** Every stored quantity is positive: the store never keeps a line at zero. */
  predicate QuantitiesPositive(m: seq<AddOnLine>) {
    forall i :: 0 <= i < |m| ==> m[i].quantity > 0
  }

  predicate WellFormed(m: seq<AddOnLine>) {
    KeysDistinct(m) && QuantitiesPositive(m)
  }

  /** Position of the line keyed `id`, or -1 when there is none. */
  function IndexOf(m: seq<AddOnLine>, id: string): (k: int)
    ensures -1 <= k < |m|
    ensures k >= 0 ==> m[k].item.id == id && forall j :: 0 <= j < k ==> m[j].item.id != id
    ensures k < 0 ==> forall j :: 0 <= j < |m| ==> m[j].item.id != id
  {
    if m == [] then -1
    else if m[0].item.id == id then 0
    else
      var k := IndexOf(m[1..], id);
      if k < 0 then -1 else k + 1
  }

  /** The entry stored under the id, if any (`Map.get`). */
  function Get(m: seq<AddOnLine>, id: string): (r: Option<AddOnLine>)
    ensures r.Some? <==> exists i :: 0 <= i < |m| && m[i].item.id == id
    ensures forall k :: 0 <= k < |m| && m[k].item.id == id && (forall j :: 0 <= j < k ==> m[j].item.id != id) ==>
      r == Some(m[k])
  {
    var k := IndexOf(m, id);
    if k >= 0 then Some(m[k]) else None
  }

  /** The first line keyed `id` is where IndexOf finds it. */
  lemma IndexOfFirst(m: seq<AddOnLine>, id: string, k: int)
    requires 0 <= k < |m| && m[k].item.id == id
    requires forall j :: 0 <= j < k ==> m[j].item.id != id
    ensures IndexOf(m, id) == k
  {
  }

  /** Stores the line under its item's id (`Map.set`): an existing entry is
      replaced where it stands, a new one goes last. */
  function Put(m: seq<AddOnLine>, item: AddOnItem, quantity: int): (r: seq<AddOnLine>)
    ensures KeysDistinct(m) ==> KeysDistinct(r)
    ensures Get(r, item.id) == Some(AddOnLine(item, quantity))
    ensures IndexOf(m, item.id) >= 0 ==> |r| == |m| && r[IndexOf(m, item.id)] == AddOnLine(item, quantity)
    ensures IndexOf(m, item.id) < 0 ==> r == m + [AddOnLine(item, quantity)]
    ensures forall i :: 0 <= i < |m| && m[i].item.id != item.id ==> r[i] == m[i]
  {
    var k := IndexOf(m, item.id);
    var line := AddOnLine(item, quantity);
    if k >= 0 then
      IndexOfFirst(m[k := line], item.id, k);
      m[k := line]
    else
      IndexOfFirst(m + [line], item.id, |m|);
      m + [line]
  }

  /** Drops the entry stored under the id, if any (`Map.delete`). */
  function Remove(m: seq<AddOnLine>, id: string): (r: seq<AddOnLine>)
    ensures IndexOf(m, id) < 0 ==> r == m
    ensures IndexOf(m, id) >= 0 ==> |r| == |m| - 1
    ensures KeysDistinct(m) ==> KeysDistinct(r) && Get(r, id) == None
    ensures QuantitiesPositive(m) ==> QuantitiesPositive(r)
    ensures forall line :: line in r ==> line in m
    ensures forall i :: 0 <= i < |m| && i < IndexOf(m, id) ==> r[i] == m[i]
    ensures IndexOf(m, id) >= 0 ==> forall i :: IndexOf(m, id) <= i < |r| ==> r[i] == m[i + 1]
  {
    var k := IndexOf(m, id);
    if k >= 0 then m[..k] + m[k + 1..] else m
  }

  /** Putting a key leaves every other key's entry as it was. */
  lemma PutOtherKeys(m: seq<AddOnLine>, item: AddOnItem, quantity: int, other: string)
    requires other != item.id
    ensures Get(Put(m, item, quantity), other) == Get(m, other)
  {
    var r := Put(m, item, quantity);
    var j := IndexOf(m, other);
    if j >= 0 {
      IndexOfFirst(r, other, j);
    } else {
      assert forall i :: 0 <= i < |r| ==> r[i].item.id != other by {
        forall i | 0 <= i < |r| ensures r[i].item.id != other {
          if i < |m| && m[i].item.id != item.id { assert r[i] == m[i]; }
        }
      }
    }
  }

  /** Removing a key leaves every other key's entry as it was. */
  lemma RemoveOtherKeys(m: seq<AddOnLine>, id: string, other: string)
    requires other != id
    ensures Get(Remove(m, id), other) == Get(m, other)
  {
    var k := IndexOf(m, id);
    if k >= 0 {
      var r := Remove(m, id);
      assert forall i :: 0 <= i < k ==> r[i] == m[i];
      assert forall i :: k <= i < |r| ==> r[i] == m[i + 1];
      var j := IndexOf(m, other);
      if j >= 0 {
        var jr := if j < k then j else j - 1;
        IndexOfFirst(r, other, jr);
      }
    }
  }

  /** Setting a positive quantity keeps the map well formed. */
  lemma PutKeepsWellFormed(m: seq<AddOnLine>, item: AddOnItem, quantity: int)
    requires WellFormed(m) && quantity > 0
    ensures WellFormed(Put(m, item, quantity))
  {
    var r := Put(m, item, quantity);
    var k := IndexOf(m, item.id);
    forall i | 0 <= i < |r|
      ensures r[i].quantity > 0
    {
      if i < |m| && i != k {
        assert m[i].item.id != item.id;
      }
    }
  }
}
