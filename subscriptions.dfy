/**
 * The subscription record and the in-memory store that owns every record
 * (subscription.service.ts). The store keeps the records in insertion order
 * and hands out ids from a counter that only grows, so an id is never given
 * out twice, not even after the record that carried it was deleted.
 */
module Subscriptions {
  import opened Wrappers
  import opened Dates

  /** The billing-cycle tag; it is shown, never expanded into more payment days. */
  datatype Cycle = Monthly | Yearly | Weekly

  /**
   * A stored payment entry. `price` is a JavaScript number in the source; the
   * application only ever asks whether it is missing, zero or negative, so it
   * is an integer here.
   */
  datatype Subscription = Subscription(id: string, name: string, price: int, cycle: Cycle, paymentDate: Date)

  /** What addSubscription is given: a Subscription without id and paymentDate. */
  datatype SubscriptionData = SubscriptionData(name: string, price: int, cycle: Cycle)

  // ---------------------------------------------------------------------------
  // Ids: the counter written out by Number.prototype.toString, and read back.
  // ---------------------------------------------------------------------------

  function DigitChar(k: int): (c: char)
    requires 0 <= k < 10
  {
    ('0' as int + k) as char
  }

  function DigitValue(c: char): int {
    if '0' <= c <= '9' then c as int - '0' as int else 0
  }

  /** The decimal numeral of `n`, as `n.toString()` writes it. */
  function ToDecimal(n: nat): (s: string)
    ensures |s| >= 1
    ensures forall i :: 0 <= i < |s| ==> '0' <= s[i] <= '9'
    ensures |s| > 1 ==> s[0] != '0'
    decreases n
  {
    if n < 10 then [DigitChar(n)] else ToDecimal(n / 10) + [DigitChar(n % 10)]
  }

  /** An id read as a number (the digits of `s`, most significant first). */
  function ParseDecimal(s: string): nat
    decreases |s|
  {
    if s == [] then 0 else ParseDecimal(s[..|s| - 1]) * 10 + DigitValue(s[|s| - 1])
  }

  lemma {:induction false} ParseToDecimal(n: nat)
    ensures ParseDecimal(ToDecimal(n)) == n
    decreases n
  {
    if n >= 10 {
      ParseToDecimal(n / 10);
      var prefix, last := ToDecimal(n / 10), DigitChar(n % 10);
      assert (prefix + [last])[..|prefix|] == prefix;
      assert DigitValue(last) == n % 10;
    }
  }

  /** Distinct counter values give distinct ids. */
  lemma ToDecimalInjective(a: nat, b: nat)
    ensures ToDecimal(a) == ToDecimal(b) <==> a == b
  {
    ParseToDecimal(a);
    ParseToDecimal(b);
  }

  predicate HasId(subs: seq<Subscription>, id: string) {
    exists i :: 0 <= i < |subs| && subs[i].id == id
  }

  lemma HasIdCons(subs: seq<Subscription>, id: string)
    requires subs != []
    ensures HasId(subs, id) <==> subs[0].id == id || HasId(subs[1..], id)
  {
    if HasId(subs, id) && subs[0].id != id {
      var i :| 0 <= i < |subs| && subs[i].id == id;
      assert subs[1..][i - 1].id == id;
    }
    if HasId(subs[1..], id) {
      var i :| 0 <= i < |subs[1..]| && subs[1..][i].id == id;
      assert subs[i + 1].id == id;
    }
  }

  predicate UniqueIds(subs: seq<Subscription>) {
    forall i, j :: 0 <= i < j < |subs| ==> subs[i].id != subs[j].id
  }

  /** Every stored id, read as a number, is below the counter. */
  predicate IdsBelow(subs: seq<Subscription>, bound: int) {
    forall i :: 0 <= i < |subs| ==> ParseDecimal(subs[i].id) < bound
  }

  // ---------------------------------------------------------------------------
  // The three array operations the store uses: filter by day, findIndex by id,
  // filter by id.
  // ---------------------------------------------------------------------------

  /** Payment dates are compared by getFullYear, getMonth and getDate only. */
  predicate SameDay(a: Date, b: Date) {
    a.year == b.year && a.month == b.month && a.day == b.day
  }

  /** getSubscriptionsByDate: the records paid on `date`, in store order. */
  function SubscriptionsOn(subs: seq<Subscription>, date: Date): (r: seq<Subscription>)
    ensures |r| <= |subs|
    ensures forall x :: x in r <==> x in subs && SameDay(x.paymentDate, date)
    decreases |subs|
  {
    if subs == [] then []
    else (if SameDay(subs[0].paymentDate, date) then [subs[0]] else []) + SubscriptionsOn(subs[1..], date)
  }

  /** The query distributes over concatenation: store order is kept. */
  lemma {:induction false} SubscriptionsOnConcat(a: seq<Subscription>, b: seq<Subscription>, date: Date)
    ensures SubscriptionsOn(a + b, date) == SubscriptionsOn(a, date) + SubscriptionsOn(b, date)
    decreases |a|
  {
    if a != [] {
      assert (a + b)[1..] == a[1..] + b;
      SubscriptionsOnConcat(a[1..], b, date);
    } else {
      assert a + b == b;
    }
  }

  /** A record appended to the store comes last in the query for its own day. */
  lemma SubscriptionsOnAppend(subs: seq<Subscription>, x: Subscription, date: Date)
    ensures SubscriptionsOn(subs + [x], date)
         == SubscriptionsOn(subs, date) + (if SameDay(x.paymentDate, date) then [x] else [])
  {
    SubscriptionsOnConcat(subs, [x], date);
    assert [x][1..] == [];
  }

  /** Array.prototype.findIndex on the id: the first matching index, or -1. */
  function FirstIndexOf(subs: seq<Subscription>, id: string): (i: int)
    ensures -1 <= i < |subs|
    ensures i == -1 <==> !HasId(subs, id)
    ensures i >= 0 ==> subs[i].id == id && forall j :: 0 <= j < i ==> subs[j].id != id
    decreases |subs|
  {
    if subs == [] then -1
    else if subs[0].id == id then 0
    else
      HasIdCons(subs, id);
      var k := FirstIndexOf(subs[1..], id);
      if k == -1 then -1 else k + 1
  }

  /** The filter of deleteSubscription: every record whose id differs from `id`. */
  function WithoutId(subs: seq<Subscription>, id: string): (r: seq<Subscription>)
    ensures |r| <= |subs|
    ensures forall x :: x in r <==> x in subs && x.id != id
    ensures |r| < |subs| <==> HasId(subs, id)
    decreases |subs|
  {
    if subs == [] then []
    else
      var rest := WithoutId(subs[1..], id);
      HasIdCons(subs, id);
      if subs[0].id == id then rest else [subs[0]] + rest
  }

  /** One step of the delete filter: the head is kept exactly when its id differs. */
  lemma WithoutIdCons(subs: seq<Subscription>, id: string)
    requires subs != []
    ensures WithoutId(subs, id) == (if subs[0].id == id then [] else [subs[0]]) + WithoutId(subs[1..], id)
  {
  }

  /** Deleting keeps the other records in their original order. */
  lemma {:induction false} WithoutIdConcat(a: seq<Subscription>, b: seq<Subscription>, id: string)
    ensures WithoutId(a + b, id) == WithoutId(a, id) + WithoutId(b, id)
    decreases |a|
  {
    if a == [] {
      assert a + b == b;
    } else {
      var ab := a + b;
      assert ab[0] == a[0] && ab[1..] == a[1..] + b;
      WithoutIdCons(ab, id);
      WithoutIdCons(a, id);
      WithoutIdConcat(a[1..], b, id);
      var head := if a[0].id == id then [] else [a[0]];
      var restA, restB := WithoutId(a[1..], id), WithoutId(b, id);
      ConcatAssoc(head, restA, restB);
    }
  }

  lemma ConcatAssoc(a: seq<Subscription>, b: seq<Subscription>, c: seq<Subscription>)
    ensures a + (b + c) == (a + b) + c
  {
  }

  /** Nothing to delete leaves the records as they are. */
  lemma {:induction false} WithoutAbsentId(subs: seq<Subscription>, id: string)
    requires !HasId(subs, id)
    ensures WithoutId(subs, id) == subs
    decreases |subs|
  {
    if subs != [] {
      HasIdCons(subs, id);
      WithoutAbsentId(subs[1..], id);
      assert subs == [subs[0]] + subs[1..];
    }
  }

  /** Deleting the same id twice: the second call finds nothing and changes nothing. */
  lemma DeleteTwice(subs: seq<Subscription>, id: string)
    ensures var once := WithoutId(subs, id);
      !HasId(once, id) && WithoutId(once, id) == once
  {
    var once := WithoutId(subs, id);
    forall i | 0 <= i < |once| ensures once[i].id != id {
      assert once[i] in once;
    }
    WithoutAbsentId(once, id);
  }

  /** Below the head of a list with distinct ids: distinct ids, none equal to the head's. */
  lemma UniqueTail(subs: seq<Subscription>)
    requires subs != [] && UniqueIds(subs)
    ensures UniqueIds(subs[1..])
    ensures !HasId(subs[1..], subs[0].id)
  {
    var tail := subs[1..];
    forall i, j | 0 <= i < j < |tail| ensures tail[i].id != tail[j].id {
      assert tail[i] == subs[i + 1] && tail[j] == subs[j + 1];
    }
    forall i | 0 <= i < |tail| ensures tail[i].id != subs[0].id {
      assert tail[i] == subs[i + 1];
    }
  }

  /** A record put in front of a list with distinct ids, none its own, keeps them distinct. */
  lemma UniqueCons(x: Subscription, rest: seq<Subscription>)
    requires UniqueIds(rest) && forall y :: y in rest ==> y.id != x.id
    ensures UniqueIds([x] + rest)
  {
    var r := [x] + rest;
    forall i, j | 0 <= i < j < |r| ensures r[i].id != r[j].id {
      assert r[j] == rest[j - 1] && rest[j - 1] in rest;
      if i > 0 {
        assert r[i] == rest[i - 1];
      }
    }
  }

  /** With unique ids, deleting an id that is present removes exactly one record. */
  lemma {:induction false} WithoutUniqueId(subs: seq<Subscription>, id: string)
    requires UniqueIds(subs)
    ensures UniqueIds(WithoutId(subs, id))
    ensures HasId(subs, id) ==> |WithoutId(subs, id)| == |subs| - 1
    decreases |subs|
  {
    if subs != [] {
      var tail := subs[1..];
      UniqueTail(subs);
      WithoutUniqueId(tail, id);
      HasIdCons(subs, id);
      if subs[0].id != id {
        var rest := WithoutId(tail, id);
        forall y | y in rest ensures y.id != subs[0].id {
          var i :| 0 <= i < |tail| && tail[i] == y;
        }
        UniqueCons(subs[0], rest);
      }
    }
  }

  /** A record whose id reads as the bound joins a list of distinct ids below it. */
  lemma AppendFreshId(subs: seq<Subscription>, r: Subscription, bound: int)
    requires UniqueIds(subs) && IdsBelow(subs, bound) && ParseDecimal(r.id) == bound
    ensures UniqueIds(subs + [r]) && IdsBelow(subs + [r], bound + 1)
    ensures forall x :: x in subs ==> ParseDecimal(x.id) < ParseDecimal(r.id)
  {
    var t := subs + [r];
    forall i, j | 0 <= i < j < |t| ensures t[i].id != t[j].id {
      assert t[i] == subs[i];
      if j < |subs| {
        assert t[j] == subs[j];
      }
    }
  }

  // ---------------------------------------------------------------------------
  // The store.
  // ---------------------------------------------------------------------------

  class SubscriptionService {
    var subscriptions: seq<Subscription>
    var nextId: nat

    /** Ids are pairwise distinct and were all issued before the counter's current value. */
    ghost predicate Valid()
      reads this
    {
      nextId >= 1 && UniqueIds(subscriptions) && IdsBelow(subscriptions, nextId)
    }

    constructor ()
      ensures Valid()
      ensures subscriptions == [] && nextId == 1
    {
      subscriptions := [];
      nextId := 1;
    }

    /** Appends a record that carries the counter as its id; the counter moves on by one. */
    method AddSubscription(data: SubscriptionData, paymentDate: Date) returns (r: Subscription)
      requires Valid()
      modifies this
      ensures Valid()
      ensures r == Subscription(ToDecimal(old(nextId)), data.name, data.price, data.cycle, paymentDate)
      ensures nextId == old(nextId) + 1
      ensures subscriptions == old(subscriptions) + [r]
      ensures forall x :: x in old(subscriptions) ==> ParseDecimal(x.id) < ParseDecimal(r.id)
      ensures GetSubscriptionsByDate(paymentDate) == old(GetSubscriptionsByDate(paymentDate)) + [r]
    {
      r := Subscription(ToDecimal(nextId), data.name, data.price, data.cycle, paymentDate);
      ParseToDecimal(nextId);
      AppendFreshId(subscriptions, r, nextId);
      nextId := nextId + 1;
      SubscriptionsOnAppend(subscriptions, r, paymentDate);
      subscriptions := subscriptions + [r];
    }

    /** The records paid on `date`, in store order; the store is only read. */
    function GetSubscriptionsByDate(date: Date): (r: seq<Subscription>)
      reads this
      ensures |r| <= |subscriptions|
      ensures forall x :: x in r <==> x in subscriptions && SameDay(x.paymentDate, date)
    {
      SubscriptionsOn(subscriptions, date)
    }

    /** Replaces, at its index, the first record whose id is `updated.id`; null when there is none. */
    method UpdateSubscription(updated: Subscription) returns (r: Option<Subscription>)
      requires Valid()
      modifies this`subscriptions
      ensures Valid()
      ensures var i := FirstIndexOf(old(subscriptions), updated.id);
        if i == -1 then r == None && subscriptions == old(subscriptions)
        else r == Some(updated) && subscriptions == old(subscriptions)[i := updated]
    {
      var index := FirstIndexOf(subscriptions, updated.id);
      if index != -1 {
        subscriptions := subscriptions[index := updated];
        return Some(updated);
      }
      return None;
    }

    /** Filters out every record with this id; true iff that shortened the store. */
    method DeleteSubscription(id: string) returns (removed: bool)
      requires Valid()
      modifies this`subscriptions
      ensures Valid()
      ensures subscriptions == WithoutId(old(subscriptions), id)
      ensures removed <==> HasId(old(subscriptions), id)
    {
      var initialLength := |subscriptions|;
      WithoutUniqueId(subscriptions, id);
      subscriptions := WithoutId(subscriptions, id);
      removed := |subscriptions| < initialLength;
    }
  }

  /** Adding "Netflix" on 2024-07-15 and querying that day and the next. */
  method NetflixScenario()
  {
    var service := new SubscriptionService();
    var july15: Date := Ymd(2024, 6, 15);
    var july16: Date := Ymd(2024, 6, 16);
    var before16 := service.GetSubscriptionsByDate(july16);
    var netflix := service.AddSubscription(SubscriptionData("Netflix", 15, Monthly), july15);
    assert netflix.name == "Netflix";
    assert service.GetSubscriptionsByDate(july15) == [netflix];
    assert service.GetSubscriptionsByDate(july16) == [];
    var edited := service.UpdateSubscription(netflix.(name := "Netflix HD", price := 20));
    assert edited.Some?;
    assert service.GetSubscriptionsByDate(july15) == [netflix.(name := "Netflix HD", price := 20)];
    var gone := service.DeleteSubscription(netflix.id);
    assert gone;
    var again := service.DeleteSubscription(netflix.id);
    assert !again;
  }
}
