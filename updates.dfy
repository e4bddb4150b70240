/**
 * The pure next-value computations of the app store: each mutator of the
 * store computes its new value with one of these and then replaces a state
 * cell and writes a storage key (see the class in appstore.dfy).
 */
module Updates {
  import opened Wrappers
  import opened Sequences
  import opened Strings
  import opened Entities

  /** The search history keeps at most this many entries (`slice(0, 10)`). */
  const MaxHistory: nat := 10

  // ---------------------------------------------------------------- items

  /** `items.map(item => item.id === id ? { ...item, status } : item)`. */
  function WithStatus(items: seq<Item>, id: string, status: ItemStatus): (r: seq<Item>)
    ensures |r| == |items|
    ensures forall i :: 0 <= i < |r| ==> r[i].id == items[i].id
    ensures forall i :: 0 <= i < |r| && items[i].id == id ==>
              r[i].status == status && r[i].(status := items[i].status) == items[i]
    ensures forall i :: 0 <= i < |r| && items[i].id != id ==> r[i] == items[i]
  {
    seq(|items|, i requires 0 <= i < |items| =>
      if items[i].id == id then items[i].(status := status) else items[i])
  }

  /** An id no item carries leaves the list as it was. */
  lemma WithStatusUnknownId(items: seq<Item>, id: string, status: ItemStatus)
    requires forall i :: 0 <= i < |items| ==> items[i].id != id
    ensures WithStatus(items, id, status) == items
  {
  }

  /** Setting the same status twice is the same as setting it once. */
  lemma WithStatusIdempotent(items: seq<Item>, id: string, status: ItemStatus)
    ensures WithStatus(WithStatus(items, id, status), id, status) == WithStatus(items, id, status)
  {
  }

  /** The later of two status updates on one id wins. */
  lemma WithStatusLastWins(items: seq<Item>, id: string, first: ItemStatus, second: ItemStatus)
    ensures WithStatus(WithStatus(items, id, first), id, second) == WithStatus(items, id, second)
  {
  }

  /** Updates on two different ids do not interfere. */
  lemma WithStatusCommutes(items: seq<Item>, a: string, sa: ItemStatus, b: string, sb: ItemStatus)
    requires a != b
    ensures WithStatus(WithStatus(items, a, sa), b, sb) == WithStatus(WithStatus(items, b, sb), a, sa)
  {
  }

  /**
   * From the built-in items, making item "3" available changes its status
   * and nothing else: it keeps owner "Mike Johnson" and price 15, and the
   * other five items are untouched.
   */
  lemma MakeCalculatorAvailable()
    ensures var r := WithStatus(InitialItems, "3", Available);
      && |r| == 6
      && r[2].id == "3" && r[2].status == Available
      && r[2].owner == "Mike Johnson" && r[2].price == 15
      && r[2].title == InitialItems[2].title
      && r[2] == InitialItems[2].(status := Available)
      && forall i :: 0 <= i < 6 && i != 2 ==> r[i] == InitialItems[i]
  {
    var r := WithStatus(InitialItems, "3", Available);
    assert InitialItems[2].id == "3";
    assert forall i :: 0 <= i < 6 && i != 2 ==> InitialItems[i].id != "3";
  }

  // -------------------------------------------------------------- profile

  /** `{ ...profile, ...patch }`: each field present in the patch overrides. */
  function Merged(p: UserProfile, patch: ProfilePatch): (r: UserProfile)
    ensures patch.name.Some? ==> r.name == patch.name.value
    ensures patch.name.None? ==> r.name == p.name
    ensures patch.course.Some? ==> r.course == patch.course.value
    ensures patch.course.None? ==> r.course == p.course
    ensures patch.yearLevel.Some? ==> r.yearLevel == patch.yearLevel.value
    ensures patch.yearLevel.None? ==> r.yearLevel == p.yearLevel
    ensures patch.email.Some? ==> r.email == patch.email.value
    ensures patch.email.None? ==> r.email == p.email
    ensures patch.phone.Some? ==> r.phone == patch.phone.value
    ensures patch.phone.None? ==> r.phone == p.phone
    ensures patch.ratingTenths.Some? ==> r.ratingTenths == patch.ratingTenths.value
    ensures patch.ratingTenths.None? ==> r.ratingTenths == p.ratingTenths
    ensures patch.credits.Some? ==> r.credits == patch.credits.value
    ensures patch.credits.None? ==> r.credits == p.credits
    ensures patch.itemsBorrowed.Some? ==> r.itemsBorrowed == patch.itemsBorrowed.value
    ensures patch.itemsBorrowed.None? ==> r.itemsBorrowed == p.itemsBorrowed
    ensures patch.itemsLent.Some? ==> r.itemsLent == patch.itemsLent.value
    ensures patch.itemsLent.None? ==> r.itemsLent == p.itemsLent
    ensures patch.memberSince.Some? ==> r.memberSince == patch.memberSince.value
    ensures patch.memberSince.None? ==> r.memberSince == p.memberSince
  {
    UserProfile(
      patch.name.GetOr(p.name),
      patch.course.GetOr(p.course),
      patch.yearLevel.GetOr(p.yearLevel),
      patch.email.GetOr(p.email),
      patch.phone.GetOr(p.phone),
      patch.ratingTenths.GetOr(p.ratingTenths),
      patch.credits.GetOr(p.credits),
      patch.itemsBorrowed.GetOr(p.itemsBorrowed),
      patch.itemsLent.GetOr(p.itemsLent),
      patch.memberSince.GetOr(p.memberSince))
  }

  /** Two patches applied one after the other, as one patch: the later one wins field by field. */
  function Then(a: ProfilePatch, b: ProfilePatch): ProfilePatch {
    ProfilePatch(
      if b.name.Some? then b.name else a.name,
      if b.course.Some? then b.course else a.course,
      if b.yearLevel.Some? then b.yearLevel else a.yearLevel,
      if b.email.Some? then b.email else a.email,
      if b.phone.Some? then b.phone else a.phone,
      if b.ratingTenths.Some? then b.ratingTenths else a.ratingTenths,
      if b.credits.Some? then b.credits else a.credits,
      if b.itemsBorrowed.Some? then b.itemsBorrowed else a.itemsBorrowed,
      if b.itemsLent.Some? then b.itemsLent else a.itemsLent,
      if b.memberSince.Some? then b.memberSince else a.memberSince)
  }

  /** Merging an empty patch changes nothing. */
  lemma MergedEmpty(p: UserProfile)
    ensures Merged(p, EmptyPatch) == p
  {
  }

  /** Merging the same patch twice is merging it once. */
  lemma MergedIdempotent(p: UserProfile, patch: ProfilePatch)
    ensures Merged(Merged(p, patch), patch) == Merged(p, patch)
  {
  }

  /** Two successive merges are one merge of the combined patch. */
  lemma MergedThen(p: UserProfile, a: ProfilePatch, b: ProfilePatch)
    ensures Merged(Merged(p, a), b) == Merged(p, Then(a, b))
  {
  }

  /** `{ ...profile, credits: profile.credits + amount }`. */
  function Credited(p: UserProfile, amount: int): (r: UserProfile)
    ensures r.credits == p.credits + amount
    ensures r.(credits := p.credits) == p
  {
    p.(credits := p.credits + amount)
  }

  /** Adding credits is the merge of a patch that holds only the new balance. */
  lemma CreditedIsMerge(p: UserProfile, amount: int)
    ensures Credited(p, amount) == Merged(p, EmptyPatch.(credits := Some(p.credits + amount)))
  {
  }

  /** Credit deltas add up. */
  lemma CreditedAdditive(p: UserProfile, a: int, b: int)
    ensures Credited(Credited(p, a), b) == Credited(p, a + b)
  {
  }

  /** There is no floor: from the built-in profile, spending 2451 credits gives a negative balance. */
  lemma CreditsMayGoNegative()
    ensures Credited(InitialUser, -2451).credits == -1
  {
  }

  // ------------------------------------------------------------ favourites

  /** `s.filter(y => y !== x)`. */
  function Without<T(==)>(s: seq<T>, x: T): (r: seq<T>)
    ensures x !in r
    ensures forall y :: y in r ==> y in s
    ensures forall y :: y in s && y != x ==> y in r
    ensures IsSubsequence(r, s)
    ensures x !in s ==> r == s
    ensures NoDup(s) ==> NoDup(r)
  {
    var keep := (y: T) => y != x;
    var r := Filter(s, keep);
    assert NoDup(s) ==> NoDup(r) by {
      if NoDup(s) {
        FilterNoDup(s, keep);
      }
    }
    r
  }

  /** Every copy of `x` goes; every other value keeps all its copies. */
  lemma WithoutCounts<T>(s: seq<T>, x: T, y: T)
    ensures multiset(Without(s, x))[y] == if y == x then 0 else multiset(s)[y]
  {
    FilterCounts(s, (z: T) => z != x, y);
  }

  /** Removing a value appended to a list that lacked it gives the list back. */
  lemma {:induction false} WithoutAppended<T>(s: seq<T>, x: T)
    requires x !in s
    ensures Without(s + [x], x) == s
  {
    if s == [] {
      assert [] + [x] == [x];
    } else {
      assert (s + [x])[1..] == s[1..] + [x];
      WithoutAppended(s[1..], x);
      assert s == [s[0]] + s[1..];
    }
  }

  /**
   * `favs.includes(id) ? favs.filter(f => f !== id) : [...favs, id]`:
   * membership of `id` flips, every other id keeps its membership.
   */
  function Toggled(favs: seq<string>, id: string): (r: seq<string>)
    ensures id in r <==> id !in favs
    ensures forall x :: x != id ==> (x in r <==> x in favs)
    ensures id !in favs ==> r == favs + [id]
    ensures id in favs ==> IsSubsequence(r, favs)
    ensures NoDup(favs) ==> NoDup(r)
  {
    if id in favs then Without(favs, id)
    else
      var r := favs + [id];
      assert NoDup(favs) ==> NoDup(r) by {
        if NoDup(favs) {
          forall i, j | 0 <= i < j < |r| ensures r[i] != r[j] {
            if j == |favs| {
              assert r[i] == favs[i];
            }
          }
        }
      }
      r
  }

  /** Toggling an id twice restores whether each id is a favourite. */
  lemma ToggledTwiceMembership(favs: seq<string>, id: string, x: string)
    ensures x in Toggled(Toggled(favs, id), id) <==> x in favs
  {
  }

  /** Toggling an absent id twice gives back exactly the same list. */
  lemma ToggledTwiceAbsent(favs: seq<string>, id: string)
    requires id !in favs
    ensures Toggled(Toggled(favs, id), id) == favs
  {
    WithoutAppended(favs, id);
  }

  /** The favourites after `n` successive toggles of `id`. */
  function Toggles(favs: seq<string>, id: string, n: nat): seq<string> {
    if n == 0 then favs else Toggled(Toggles(favs, id, n - 1), id)
  }

  /** After `n` toggles of `id`, its membership has flipped exactly when `n` is odd. */
  lemma {:induction false} TogglesParity(favs: seq<string>, id: string, n: nat)
    ensures (id in Toggles(favs, id, n)) <==> ((id in favs) != (n % 2 == 1))
  {
    if n > 0 {
      TogglesParity(favs, id, n - 1);
      assert (n % 2 == 1) == ((n - 1) % 2 != 1);
    }
  }

  /** Toggling `id` any number of times leaves every other id's membership alone. */
  lemma {:induction false} TogglesKeepOthers(favs: seq<string>, id: string, n: nat, x: string)
    requires x != id
    ensures x in Toggles(favs, id, n) <==> x in favs
  {
    if n > 0 {
      var prev := Toggles(favs, id, n - 1);
      TogglesKeepOthers(favs, id, n - 1, x);
      assert Toggles(favs, id, n) == Toggled(prev, id);
    }
  }

  /** Toggling never introduces a duplicate favourite. */
  lemma {:induction false} TogglesNoDup(favs: seq<string>, id: string, n: nat)
    requires NoDup(favs)
    ensures NoDup(Toggles(favs, id, n))
  {
    if n > 0 {
      TogglesNoDup(favs, id, n - 1);
    }
  }

  /** An even number of toggles of an id that was not a favourite changes nothing. */
  lemma {:induction false} TogglesEvenRestores(favs: seq<string>, id: string, n: nat)
    requires id !in favs && n % 2 == 0
    ensures Toggles(favs, id, n) == favs
  {
    if n > 0 {
      assert n != 1;
      var m: nat := n - 2;
      assert m % 2 == 0;
      TogglesEvenRestores(favs, id, m);
      assert Toggles(favs, id, m + 2) == Toggled(Toggled(Toggles(favs, id, m), id), id);
      ToggledTwiceAbsent(favs, id);
    }
  }

  // -------------------------------------------------------- search history

  /**
   * `[query, ...history.filter(h => h !== query)].slice(0, 10)`: the query
   * moves to the front, occurs once, and is followed by as many of the other
   * entries as fit, in their previous order.
   */
  function PushedFront(history: seq<string>, query: string): (r: seq<string>)
    ensures 0 < |r| <= MaxHistory && r[0] == query
    ensures forall i :: 1 <= i < |r| ==> r[i] != query
    ensures var rest := Without(history, query);
              |r| == (if 1 + |rest| <= MaxHistory then 1 + |rest| else MaxHistory) &&
              r[1..] == rest[..|r| - 1]
    ensures IsSubsequence(r[1..], history)
    ensures NoDup(history) ==> NoDup(r)
  {
    var rest := Without(history, query);
    var full := [query] + rest;
    var r := Take(full, MaxHistory);
    assert r[1..] == rest[..|r| - 1];
    assert forall i :: 1 <= i < |r| ==> r[i] == rest[i - 1];
    PrefixOfSubsequence(rest, history, |r| - 1);
    assert NoDup(history) ==> NoDup(r) by {
      if NoDup(history) {
        NoDupCons(query, rest);
        assert forall i, j :: 0 <= i < j < |r| ==> r[i] == full[i] && r[j] == full[j];
      }
    }
    r
  }

  /**
   * `addSearchHistory`'s new history: a blank query (one that `trim` empties)
   * changes nothing; any other query is pushed to the front.
   */
  function Pushed(history: seq<string>, query: string): (r: seq<string>)
    ensures IsBlank(query) ==> r == history
    ensures !IsBlank(query) ==> 0 < |r| <= MaxHistory && r[0] == query
    ensures !IsBlank(query) ==> forall i :: 1 <= i < |r| ==> r[i] != query
    ensures !IsBlank(query) ==>
              var rest := Without(history, query);
              |r| == (if 1 + |rest| <= MaxHistory then 1 + |rest| else MaxHistory) &&
              r[1..] == rest[..|r| - 1]
    ensures !IsBlank(query) ==> IsSubsequence(r[1..], history)
    ensures NoDup(history) ==> NoDup(r)
  {
    TrimEmptyIffBlank(query);
    if Trim(query) == [] then history else PushedFront(history, query)
  }

  /** The history after the queries `qs`, entered in order. */
  function PushedAll(history: seq<string>, qs: seq<string>): seq<string> {
    if qs == [] then history else Pushed(PushedAll(history, qs[..|qs| - 1]), qs[|qs| - 1])
  }

  /** Starting from a bounded, duplicate-free history, any run of queries keeps it so. */
  lemma {:induction false} PushedAllInvariant(history: seq<string>, qs: seq<string>)
    requires |history| <= MaxHistory && NoDup(history)
    ensures |PushedAll(history, qs)| <= MaxHistory && NoDup(PushedAll(history, qs))
  {
    if qs != [] {
      PushedAllInvariant(history, qs[..|qs| - 1]);
    }
  }

  /** The most recent non-blank query of a run is at the front of the history. */
  lemma {:induction false} PushedAllLatestFirst(history: seq<string>, qs: seq<string>, k: nat)
    requires k < |qs| && !IsBlank(qs[k])
    requires forall j :: k < j < |qs| ==> IsBlank(qs[j])
    ensures |PushedAll(history, qs)| > 0 && PushedAll(history, qs)[0] == qs[k]
  {
    if k < |qs| - 1 {
      PushedAllLatestFirst(history, qs[..|qs| - 1], k);
    }
  }

  /** A blank query, such as "" or "   ", leaves the history as it is. */
  lemma PushedBlank(history: seq<string>)
    ensures Pushed(history, "") == history
    ensures Pushed(history, "   ") == history
  {
    assert IsBlank("   ") by {
      assert forall i :: 0 <= i < 3 ==> "   "[i] == ' ';
    }
  }
}
