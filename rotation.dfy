/**
 * The key rotator of the scraper: a fixed, ordered list of API keys, the
 * `findIndex` lookup that `switchKey` performs, and the cyclic successor it
 * assigns to the active key.
 */
module Rotation {

  /** The API keys, in the order in which the scraper cycles through them. */
  const ApiKeys: seq<string> := [
    "u23bhd59r763q3a5zbtn7tdjwc3qyu6z",
    "4b55nn5e39n5ysvjrpdffedjdsh7zeqd",
    "ud2c3qa8kevg72k36p5p2tus74h6hjc7",
    "cqb42h7f596feq3qmgskc7kt9wm97g6v",
    "ef4ejs8zy2d7dj2p3vjcwgef3h8ca2mc",
    "v6eb33v33qmbav9cksf5mcr55zr6wsfc"
  ]

  /** No key occurs twice in the list. */
  ghost predicate Distinct(keys: seq<string>) {
    forall i, j :: 0 <= i < j < |keys| ==> keys[i] != keys[j]
  }

  /** Every key is a non-empty string, so every entry is truthy in JavaScript. */
  ghost predicate AllNonEmpty(keys: seq<string>) {
    forall i :: 0 <= i < |keys| ==> keys[i] != ""
  }

  /**
   * `keys.findIndex(x => x === k)`: the first position holding `k`, or -1
   * when `k` is not in the list.
   */
  function IndexOf(keys: seq<string>, k: string): (i: int)
    ensures -1 <= i < |keys|
    ensures i == -1 <==> k !in keys
    ensures 0 <= i ==> keys[i] == k && forall j :: 0 <= j < i ==> keys[j] != k
  {
    if |keys| == 0 then -1
    else if keys[0] == k then 0
    else
      var j := IndexOf(keys[1..], k);
      if j == -1 then -1 else j + 1
  }

  /**
   * JavaScript truthiness of `keys[i]`: a read past the end yields
   * `undefined` and the empty string is falsy.
   */
  predicate Truthy(keys: seq<string>, i: int)
    ensures Truthy(keys, i) ==> 0 <= i < |keys|
  {
    0 <= i < |keys| && keys[i] != ""
  }

  /**
   * The key that `switchKey` assigns when the active key is `k`: the entry
   * after the first occurrence of `k` when that entry is truthy, otherwise
   * the first entry (which is also what happens to a key not in the list,
   * since `findIndex` then yields -1).
   */
  function NextKey(keys: seq<string>, k: string): (r: string)
    requires |keys| > 0
    ensures r in keys
  {
    var next := IndexOf(keys, k) + 1;
    if Truthy(keys, next) then keys[next] else keys[0]
  }

  /**
   * The active key after `n` consecutive calls of `switchKey` starting from
   * `k`: a listed key as soon as one switch has happened.
   */
  function Rotate(keys: seq<string>, k: string, n: nat): (r: string)
    requires |keys| > 0
    ensures n > 0 || k in keys ==> r in keys
    decreases n
  {
    if n == 0 then k else Rotate(keys, NextKey(keys, k), n - 1)
  }

  /** The source's key list has six distinct, non-empty keys. */
  lemma ApiKeysWellFormed()
    ensures |ApiKeys| == 6
    ensures Distinct(ApiKeys) && AllNonEmpty(ApiKeys)
  {
    // The keys differ in their first character, except the first and the
    // third, which differ in their second.
    assert ApiKeys[0][0] == 'u' && ApiKeys[1][0] == '4' && ApiKeys[2][0] == 'u';
    assert ApiKeys[3][0] == 'c' && ApiKeys[4][0] == 'e' && ApiKeys[5][0] == 'v';
    assert ApiKeys[0][1] == '2' && ApiKeys[2][1] == 'd';
  }

  /** With distinct keys, `findIndex` finds a key exactly at its position. */
  lemma IndexOfAt(keys: seq<string>, i: nat)
    requires Distinct(keys) && i < |keys|
    ensures IndexOf(keys, keys[i]) == i
  {
    var j := IndexOf(keys, keys[i]);
    assert keys[j] == keys[i];
  }

  /**
   * `switchKey` moves to the following key, and from the last key wraps
   * around to the first.
   */
  lemma NextKeyAt(keys: seq<string>, i: nat)
    requires Distinct(keys) && AllNonEmpty(keys) && i < |keys|
    ensures i + 1 < |keys| ==> NextKey(keys, keys[i]) == keys[i + 1]
    ensures i + 1 == |keys| ==> NextKey(keys, keys[i]) == keys[0]
  {
    IndexOfAt(keys, i);
  }

  /** An active key that is not in the list is replaced by the first key. */
  lemma NextKeyOfUnknown(keys: seq<string>, k: string)
    requires |keys| > 0 && k !in keys
    ensures NextKey(keys, k) == keys[0]
  {
  }

  /** Switching `a` times and then `b` times is switching `a + b` times. */
  lemma {:induction false} RotateAdd(keys: seq<string>, k: string, a: nat, b: nat)
    requires |keys| > 0
    ensures Rotate(keys, Rotate(keys, k, a), b) == Rotate(keys, k, a + b)
    decreases a
  {
    if a > 0 {
      assert Rotate(keys, k, a) == Rotate(keys, NextKey(keys, k), a - 1);
      assert Rotate(keys, k, a + b) == Rotate(keys, NextKey(keys, k), a - 1 + b);
      RotateAdd(keys, NextKey(keys, k), a - 1, b);
    }
  }

  /**
   * Within one round, `n` switches from the key at position `i` reach the key
   * `n` places further on, counting around the end of the list.
   */
  lemma {:induction false} RotateAt(keys: seq<string>, i: nat, n: nat)
    requires Distinct(keys) && AllNonEmpty(keys) && i < |keys|
    requires n <= |keys|
    ensures Rotate(keys, keys[i], n) == keys[if i + n < |keys| then i + n else i + n - |keys|]
    decreases n
  {
    if n > 0 {
      NextKeyAt(keys, i);
      var j := if i + 1 < |keys| then i + 1 else 0;
      assert NextKey(keys, keys[i]) == keys[j];
      assert Rotate(keys, keys[i], n) == Rotate(keys, keys[j], n - 1);
      RotateAt(keys, j, n - 1);
    }
  }

  /** Switching `|keys|` times restores the original key. */
  lemma FullCycle(keys: seq<string>, i: nat)
    requires Distinct(keys) && AllNonEmpty(keys) && i < |keys|
    ensures Rotate(keys, keys[i], |keys|) == keys[i]
  {
    RotateAt(keys, i, |keys|);
  }

  /** Fewer than `|keys|` switches never restore the original key: the cycle visits every key. */
  lemma CycleIsMinimal(keys: seq<string>, i: nat, n: nat)
    requires Distinct(keys) && AllNonEmpty(keys) && i < |keys|
    requires 0 < n < |keys|
    ensures Rotate(keys, keys[i], n) != keys[i]
  {
    RotateAt(keys, i, n);
    var j := if i + n < |keys| then i + n else i + n - |keys|;
    if j < i {
      assert keys[j] != keys[i];
    } else {
      assert keys[i] != keys[j];
    }
  }

  /** The active key repeats with period `|keys|`, however many switches have happened. */
  lemma RotatePeriodic(keys: seq<string>, i: nat, n: nat)
    requires Distinct(keys) && AllNonEmpty(keys) && i < |keys|
    ensures Rotate(keys, keys[i], n + |keys|) == Rotate(keys, keys[i], n)
  {
    RotateAdd(keys, keys[i], |keys|, n);
    FullCycle(keys, i);
  }
}
