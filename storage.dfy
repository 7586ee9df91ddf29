/** The quote records kept in the browser's storage: saving (insert or
    replace), looking up and deleting by id, and numbering new quotes per day. */
module Storage {
  import opened Types
  import opened JsText

  /** The first position holding `id`, or -1 when no quote has it. */
  function IndexOfId(quotes: seq<Quote>, id: string): (k: int)
    ensures -1 <= k < |quotes|
    ensures k >= 0 ==> quotes[k].id == id && forall j :: 0 <= j < k ==> quotes[j].id != id
    ensures k < 0 ==> forall j :: 0 <= j < |quotes| ==> quotes[j].id != id
  {
    if quotes == [] then -1
    else if quotes[0].id == id then 0
    else
      var k := IndexOfId(quotes[1..], id);
      if k < 0 then -1 else k + 1
  }

  /** `getQuoteById`: the first quote with the id, if there is one. */
  function GetQuoteById(quotes: seq<Quote>, id: string): (r: Option<Quote>)
    ensures r.Some? <==> exists i :: 0 <= i < |quotes| && quotes[i].id == id
    ensures r.Some? ==> r.value.id == id && r.value in quotes
    ensures forall k :: 0 <= k < |quotes| && quotes[k].id == id && (forall j :: 0 <= j < k ==> quotes[j].id != id) ==>
      r == Some(quotes[k])
  {
    var k := IndexOfId(quotes, id);
    if k >= 0 then Some(quotes[k]) else None
  }

  /** The list `saveQuote` stores: the first quote with the same id replaced
      in place, or the new quote put in front when the id is new. */
  function Upserted(quotes: seq<Quote>, quote: Quote): (r: seq<Quote>)
    ensures (forall i :: 0 <= i < |quotes| ==> quotes[i].id != quote.id) ==> r == [quote] + quotes
    ensures forall k :: 0 <= k < |quotes| && quotes[k].id == quote.id && (forall j :: 0 <= j < k ==> quotes[j].id != quote.id) ==>
      r == quotes[k := quote]
  {
    var k := IndexOfId(quotes, quote.id);
    if k >= 0 then quotes[k := quote] else [quote] + quotes
  }

  /** The quotes whose id differs from `id`, in their stored order. */
  function WithoutId(quotes: seq<Quote>, id: string): (r: seq<Quote>)
    ensures |r| <= |quotes|
    ensures forall q :: q in r <==> q in quotes && q.id != id
  {
    if quotes == [] then []
    else if quotes[0].id == id then WithoutId(quotes[1..], id)
    else [quotes[0]] + WithoutId(quotes[1..], id)
  }

  /** Deleting from a concatenation deletes from each part: the quotes kept
      stay in their order and each keeps its number of copies. A single quote
      is kept exactly when its id differs. */
  lemma {:induction false} WithoutIdAppend(a: seq<Quote>, b: seq<Quote>, id: string)
    ensures WithoutId(a + b, id) == WithoutId(a, id) + WithoutId(b, id)
    ensures |a| == 1 ==> WithoutId(a, id) == if a[0].id == id then [] else a
  {
    if a == [] {
      assert a + b == b;
    } else {
      assert (a + b)[1..] == a[1..] + b;
      WithoutIdAppend(a[1..], b, id);
      if |a| == 1 {
        assert a[1..] == [];
      }
    }
  }

  /** No two stored quotes share an id. */
  predicate IdsDistinct(quotes: seq<Quote>) {
    forall i, j :: 0 <= i < j < |quotes| ==> quotes[i].id != quotes[j].id
  }

  /** Looking up the id of the quote just saved gives that quote. */
  lemma SaveThenGet(quotes: seq<Quote>, quote: Quote)
    ensures GetQuoteById(Upserted(quotes, quote), quote.id) == Some(quote)
  {
    var k := IndexOfId(quotes, quote.id);
    var r := Upserted(quotes, quote);
    if k >= 0 {
      IndexOfIdFirst(r, quote.id, k);
    } else {
      IndexOfIdFirst(r, quote.id, 0);
    }
  }

  /** Saving a quote changes no lookup of another id. */
  lemma SaveKeepsOthers(quotes: seq<Quote>, quote: Quote, id: string)
    requires id != quote.id
    ensures GetQuoteById(Upserted(quotes, quote), id) == GetQuoteById(quotes, id)
  {
    var k := IndexOfId(quotes, quote.id);
    var r := Upserted(quotes, quote);
    var j := IndexOfId(quotes, id);
    if j >= 0 {
      IndexOfIdFirst(r, id, if k >= 0 then j else j + 1);
    } else {
      assert forall i :: 0 <= i < |r| ==> r[i].id != id;
    }
  }

  /** Saving replaces a stored quote with the same id, so the list grows only for a new id. */
  lemma SaveLength(quotes: seq<Quote>, quote: Quote)
    ensures |Upserted(quotes, quote)| == if GetQuoteById(quotes, quote.id).Some? then |quotes| else |quotes| + 1
  {
  }

  /** Saving keeps the ids distinct, and saving the same quote twice is saving it once. */
  lemma SaveKeepsIdsDistinct(quotes: seq<Quote>, quote: Quote)
    requires IdsDistinct(quotes)
    ensures IdsDistinct(Upserted(quotes, quote))
    ensures Upserted(Upserted(quotes, quote), quote) == Upserted(quotes, quote)
  {
    var r := Upserted(quotes, quote);
    var k := IndexOfId(quotes, quote.id);
    if k < 0 {
      forall i, j | 0 <= i < j < |r|
        ensures r[i].id != r[j].id
      {
        if i > 0 {
          assert r[i] == quotes[i - 1] && r[j] == quotes[j - 1];
        }
      }
    }
    SaveThenGet(quotes, quote);
    var k' := IndexOfId(r, quote.id);
    assert r[k'] == quote;
    assert r[k' := quote] == r;
  }

  /** The first quote with `id` is where IndexOfId finds it. */
  lemma IndexOfIdFirst(quotes: seq<Quote>, id: string, k: int)
    requires 0 <= k < |quotes| && quotes[k].id == id
    requires forall j :: 0 <= j < k ==> quotes[j].id != id
    ensures IndexOfId(quotes, id) == k
  {
  }

  /** After a delete no quote with that id is found. */
  lemma DeleteThenGet(quotes: seq<Quote>, id: string)
    ensures GetQuoteById(WithoutId(quotes, id), id) == None
  {
    var r := WithoutId(quotes, id);
    assert forall i :: 0 <= i < |r| ==> r[i] in r;
  }

  /** Deleting one id changes no lookup of another id. */
  lemma {:induction false} DeleteKeepsOthers(quotes: seq<Quote>, id: string, other: string)
    requires other != id
    ensures GetQuoteById(WithoutId(quotes, id), other) == GetQuoteById(quotes, other)
  {
    if quotes != [] {
      DeleteKeepsOthers(quotes[1..], id, other);
      var rest := WithoutId(quotes[1..], id);
      assert quotes == [quotes[0]] + quotes[1..];
      GetQuoteByIdCons(quotes[0], quotes[1..], other);
      if quotes[0].id != id {
        assert WithoutId(quotes, id) == [quotes[0]] + rest;
        GetQuoteByIdCons(quotes[0], rest, other);
      }
    }
  }

  /** Looking up in a list with one more quote in front. */
  lemma GetQuoteByIdCons(q: Quote, rest: seq<Quote>, id: string)
    ensures GetQuoteById([q] + rest, id) == if q.id == id then Some(q) else GetQuoteById(rest, id)
  {
    var r := [q] + rest;
    assert r[1..] == rest;
    if q.id != id {
      var k := IndexOfId(rest, id);
      assert IndexOfId(r, id) == (if k < 0 then -1 else k + 1);
      if k >= 0 {
        assert r[k + 1] == rest[k];
      }
    }
  }

  /** Deleting keeps the ids distinct. */
  lemma {:induction false} DeleteKeepsIdsDistinct(quotes: seq<Quote>, id: string)
    requires IdsDistinct(quotes)
    ensures IdsDistinct(WithoutId(quotes, id))
  {
    if quotes != [] {
      DeleteKeepsIdsDistinct(quotes[1..], id);
      var rest := WithoutId(quotes[1..], id);
      if quotes[0].id != id {
        var r := [quotes[0]] + rest;
        forall j | 0 < j < |r|
          ensures r[0].id != r[j].id
        {
          assert r[j] in quotes[1..];
        }
      }
    }
  }

  /** The quote list in storage. */
  class QuoteStorage {
    var quotes: seq<Quote>

    constructor (quotes: seq<Quote>)
      ensures this.quotes == quotes
    {
      this.quotes := quotes;
    }

    /** `saveQuote`: replaces the stored quote with the same id, or puts the quote first. */
    method SaveQuote(quote: Quote)
      modifies this
      ensures quotes == Upserted(old(quotes), quote)
      ensures GetQuoteById(quotes, quote.id) == Some(quote)
    {
      var existingIndex := IndexOfId(quotes, quote.id);
      if existingIndex >= 0 {
        quotes := quotes[existingIndex := quote];
      } else {
        quotes := [quote] + quotes;
      }
      SaveThenGet(old(quotes), quote);
    }

    /** `deleteQuote`: drops every quote with the id. */
    method DeleteQuote(id: string)
      modifies this
      ensures quotes == WithoutId(old(quotes), id)
      ensures GetQuoteById(quotes, id) == None
    {
      quotes := WithoutId(quotes, id);
      DeleteThenGet(old(quotes), id);
    }
  }

  /** How many stored ids start with `prefix`. */
  function CountStartingWith(quotes: seq<Quote>, prefix: string): (n: nat)
    ensures n <= |quotes|
  {
    if quotes == [] then 0
    else (if StartsWith(quotes[0].id, prefix) then 1 else 0) + CountStartingWith(quotes[1..], prefix)
  }

  /** The positions of the stored quotes whose id starts with `prefix`. */
  ghost function PositionsStartingWith(quotes: seq<Quote>, prefix: string): set<int> {
    set i | 0 <= i < |quotes| && StartsWith(quotes[i].id, prefix)
  }

  /** Counting over a concatenation adds the counts of the parts. */
  lemma {:induction false} CountStartingWithAppend(a: seq<Quote>, b: seq<Quote>, prefix: string)
    ensures CountStartingWith(a + b, prefix) == CountStartingWith(a, prefix) + CountStartingWith(b, prefix)
  {
    if a == [] {
      assert a + b == b;
    } else {
      assert (a + b)[1..] == a[1..] + b;
      CountStartingWithAppend(a[1..], b, prefix);
    }
  }

  /** The count is the number of stored quotes whose id starts with `prefix`. */
  lemma {:induction false} CountStartingWithValue(quotes: seq<Quote>, prefix: string)
    ensures CountStartingWith(quotes, prefix) == |PositionsStartingWith(quotes, prefix)|
    decreases |quotes|
  {
    if quotes != [] {
      var n := |quotes| - 1;
      var init := quotes[..n];
      CountStartingWithValue(init, prefix);
      assert quotes == init + [quotes[n]];
      CountStartingWithAppend(init, [quotes[n]], prefix);
      assert [quotes[n]][1..] == [];
      var before := PositionsStartingWith(init, prefix);
      var after := PositionsStartingWith(quotes, prefix);
      if StartsWith(quotes[n].id, prefix) {
        assert after == before + {n};
        assert n !in before;
      } else {
        assert after == before;
      }
    }
  }

  /** The id of the `n`-th quote of a day: `Q-`, the date, `-`, and the
      number padded with zeros to three digits (longer numbers are kept whole). */
  function QuoteIdFor(dateStr: string, n: nat): (id: string)
    ensures StartsWith(id, "Q-" + dateStr + "-")
    ensures |id| >= |dateStr| + 6 && AllDigits(id[|dateStr| + 3..])
  {
    var prefix := "Q-" + dateStr + "-";
    var padded := PadStart(NatToString(n), 3, '0');
    ZeroPaddedValue(NatToString(n), 3);
    assert (prefix + padded)[..|prefix|] == prefix;
    assert (prefix + padded)[|prefix|..] == padded;
    prefix + padded
  }

  /** The day's sequence number an id carries, if it has the form of `QuoteIdFor(dateStr, _)`. */
  function SequenceNumber(id: string, dateStr: string): Option<nat> {
    var prefix := "Q-" + dateStr + "-";
    if StartsWith(id, prefix) && |id| > |prefix| && AllDigits(id[|prefix|..])
    then Some(DigitsValue(id[|prefix|..]))
    else None
  }

  /** An id reads back as the sequence number it was made from, so ids of
      different numbers differ. */
  lemma QuoteIdSequence(dateStr: string, n: nat)
    ensures SequenceNumber(QuoteIdFor(dateStr, n), dateStr) == Some(n)
  {
    var prefix := "Q-" + dateStr + "-";
    var padded := PadStart(NatToString(n), 3, '0');
    var id := QuoteIdFor(dateStr, n);
    assert id == prefix + padded;
    assert id[..|prefix|] == prefix && id[|prefix|..] == padded;
    ZeroPaddedValue(NatToString(n), 3);
    NatToStringValue(n);
  }

  /** `generateQuoteId`: the day's prefix followed by one more than the number
      of stored ids that start with `Q-` and the date. `dateStr` is today's
      date as `YYYYMMDD`. */
  function GenerateQuoteId(quotes: seq<Quote>, dateStr: string): (id: string)
    ensures SequenceNumber(id, dateStr) == Some(CountStartingWith(quotes, "Q-" + dateStr) + 1)
  {
    QuoteIdSequence(dateStr, CountStartingWith(quotes, "Q-" + dateStr) + 1);
    QuoteIdFor(dateStr, CountStartingWith(quotes, "Q-" + dateStr) + 1)
  }

  /** A stored quote whose fields other than the id do not matter here. */
  function QuoteWithId(id: string): Quote {
    Quote(id, "", "", EmptyCustomer, None, None, PackageRef("", "", 0), None, None, [], 0, [], 0, 0, Pending)
  }

  /** The second quote id of 15 October 2026. */
  lemma SecondIdOfDay()
    ensures QuoteIdFor("20261015", 2) == "Q-20261015-002"
  {
    assert NatToString(2) == "2";
    assert PadStart("2", 3, '0') == "002";
  }

  /** One stored id of the day gives the count 1. */
  lemma OneIdOfDay()
    ensures CountStartingWith([QuoteWithId("Q-20261015-002")], "Q-" + "20261015") == 1
  {
    var quotes := [QuoteWithId("Q-20261015-002")];
    assert StartsWith(quotes[0].id, "Q-20261015") by {
      assert quotes[0].id[..10] == "Q-20261015";
    }
    assert quotes[1..] == [];
  }

  /** Counting the day's quotes does not give a fresh number once one has been
      deleted: with only `Q-20261015-002` left of the day's two quotes, the
      generated id is `Q-20261015-002` again, and saving the new quote under it
      overwrites the stored one. */
  lemma GeneratedIdCanCollide(newQuote: Quote)
    ensures var quotes := [QuoteWithId("Q-20261015-002")];
      var id := GenerateQuoteId(quotes, "20261015");
      && id == "Q-20261015-002"
      && GetQuoteById(quotes, id).Some?
      && Upserted(quotes, newQuote.(id := id)) == [newQuote.(id := id)]
  {
    var quotes := [QuoteWithId("Q-20261015-002")];
    assert GenerateQuoteId(quotes, "20261015") == "Q-20261015-002" by {
      OneIdOfDay();
      SecondIdOfDay();
    }
  }

  /** The largest sequence number among the day's stored ids, 0 when there is none. */
  function MaxSequence(quotes: seq<Quote>, dateStr: string): (m: nat)
    ensures forall i :: 0 <= i < |quotes| && SequenceNumber(quotes[i].id, dateStr).Some? ==>
      SequenceNumber(quotes[i].id, dateStr).value <= m
  {
    if quotes == [] then 0
    else
      var rest := MaxSequence(quotes[1..], dateStr);
      match SequenceNumber(quotes[0].id, dateStr)
      case None => rest
      case Some(n) => if n > rest then n else rest
  }

  /** A new quote id numbered one past the largest number already used today,
      so it differs from every stored id. */
  function FreshQuoteId(quotes: seq<Quote>, dateStr: string): (id: string)
    ensures SequenceNumber(id, dateStr) == Some(MaxSequence(quotes, dateStr) + 1)
    ensures GetQuoteById(quotes, id) == None
  {
    var n := MaxSequence(quotes, dateStr) + 1;
    QuoteIdSequence(dateStr, n);
    QuoteIdFor(dateStr, n)
  }

  /** Saving a quote under a fresh id puts it first and keeps every stored quote. */
  lemma SaveFreshKeepsAll(quotes: seq<Quote>, quote: Quote, dateStr: string)
    requires quote.id == FreshQuoteId(quotes, dateStr)
    ensures Upserted(quotes, quote) == [quote] + quotes
    ensures IdsDistinct(quotes) ==> IdsDistinct(Upserted(quotes, quote))
  {
    if IdsDistinct(quotes) {
      SaveKeepsIdsDistinct(quotes, quote);
    }
  }
}
