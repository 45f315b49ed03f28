/** Filing records under a string key, keys kept in the order they are first
    seen: the model of filling a JavaScript `Map` or a Python `dict` (both of
    which iterate in insertion order) with one list of records per key. */
module Grouping {
  import Strings

  /** The keys, in the order they were first inserted. */
  function KeysInOrder<T>(data: seq<T>, keyOf: T -> string): seq<string>
  {
    if data == [] then []
    else
      var keys := KeysInOrder(data[..|data| - 1], keyOf);
      var k := keyOf(data[|data| - 1]);
      if k in keys then keys else keys + [k]
  }

  /** The records filed under key k, in input order. */
  function Group<T>(data: seq<T>, k: string, keyOf: T -> string): seq<T>
  {
    if data == [] then []
    else Group(data[..|data| - 1], k, keyOf) + (if keyOf(data[|data| - 1]) == k then [data[|data| - 1]] else [])
  }

  /** A non-empty sequence is its front followed by its last element. */
  lemma FrontAndLast<T>(s: seq<T>)
    requires s != []
    ensures s == s[..|s| - 1] + [s[|s| - 1]]
  {
  }

  lemma KeysInOrderOfSnoc<T>(data: seq<T>, d: T, keyOf: T -> string)
    ensures KeysInOrder(data + [d], keyOf)
         == if keyOf(d) in KeysInOrder(data, keyOf) then KeysInOrder(data, keyOf) else KeysInOrder(data, keyOf) + [keyOf(d)]
  {
    assert (data + [d])[..|data|] == data;
  }

  lemma GroupOfSnoc<T>(data: seq<T>, d: T, k: string, keyOf: T -> string)
    ensures Group(data + [d], k, keyOf) == Group(data, k, keyOf) + (if keyOf(d) == k then [d] else [])
  {
    assert (data + [d])[..|data|] == data;
  }

  /** A key has records exactly when it has been inserted. */
  lemma {:induction false} GroupEmptyIffAbsent<T>(data: seq<T>, k: string, keyOf: T -> string)
    ensures Group(data, k, keyOf) == [] <==> k !in KeysInOrder(data, keyOf)
  {
    if data != [] {
      GroupEmptyIffAbsent(data[..|data| - 1], k, keyOf);
    }
  }

  /** Every record lies in its own key's group. */
  lemma {:induction false} GroupHasItsRecords<T>(data: seq<T>, i: int, keyOf: T -> string)
    requires 0 <= i < |data|
    ensures data[i] in Group(data, keyOf(data[i]), keyOf)
  {
    var init := data[..|data| - 1];
    if i < |init| {
      GroupHasItsRecords(init, i, keyOf);
      assert init[i] == data[i];
    }
  }

  /** A group holds only records of its key. */
  lemma {:induction false} GroupHasOnlyItsKey<T>(data: seq<T>, k: string, keyOf: T -> string)
    ensures forall j :: 0 <= j < |Group(data, k, keyOf)| ==> keyOf(Group(data, k, keyOf)[j]) == k
  {
    if data != [] {
      GroupHasOnlyItsKey(data[..|data| - 1], k, keyOf);
    }
  }

  lemma {:induction false} KeysInOrderNoDuplicates<T>(data: seq<T>, keyOf: T -> string)
    ensures Strings.NoDuplicates(KeysInOrder(data, keyOf))
  {
    if data != [] {
      KeysInOrderNoDuplicates(data[..|data| - 1], keyOf);
    }
  }

  lemma {:induction false} KeysInOrderHasEveryKey<T>(data: seq<T>, i: int, keyOf: T -> string)
    requires 0 <= i < |data|
    ensures keyOf(data[i]) in KeysInOrder(data, keyOf)
  {
    var init := data[..|data| - 1];
    if i < |init| {
      KeysInOrderHasEveryKey(init, i, keyOf);
      assert init[i] == data[i];
    }
  }

  lemma {:induction false} KeysInOrderHasOnlyKeys<T>(data: seq<T>, k: string, keyOf: T -> string)
    requires k in KeysInOrder(data, keyOf)
    ensures exists i :: 0 <= i < |data| && keyOf(data[i]) == k
  {
    var init := data[..|data| - 1];
    if k in KeysInOrder(init, keyOf) {
      KeysInOrderHasOnlyKeys(init, k, keyOf);
      var i :| 0 <= i < |init| && keyOf(init[i]) == k;
      assert data[i] == init[i];
    } else {
      assert keyOf(data[|data| - 1]) == k;
    }
  }

  /** One key per distinct key of the input, each once, and no other. */
  lemma KeysInOrderAreTheDistinctKeys<T>(data: seq<T>, keyOf: T -> string)
    ensures Strings.NoDuplicates(KeysInOrder(data, keyOf))
    ensures forall k :: k in KeysInOrder(data, keyOf) <==> exists i :: 0 <= i < |data| && keyOf(data[i]) == k
  {
    KeysInOrderNoDuplicates(data, keyOf);
    forall k ensures k in KeysInOrder(data, keyOf) <==> exists i :: 0 <= i < |data| && keyOf(data[i]) == k {
      if k in KeysInOrder(data, keyOf) {
        KeysInOrderHasOnlyKeys(data, k, keyOf);
      }
      if exists i :: 0 <= i < |data| && keyOf(data[i]) == k {
        var i :| 0 <= i < |data| && keyOf(data[i]) == k;
        KeysInOrderHasEveryKey(data, i, keyOf);
      }
    }
  }
}
