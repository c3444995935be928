/**
 * The keyboard easter egg: a prefix matcher over the Konami code. Each key
 * that equals the next expected key advances the index; the tenth fires the
 * easter egg and resets; any other key resets the index to 0 without being
 * compared with the first key of the code again.
 *
 * What the easter egg does to the page is not modelled: a key press reports
 * whether it fired.
 */
module Konami {

  /** `konamiCode`, as `KeyboardEvent.key` values. */
  const KonamiCode: seq<string> := [
    "ArrowUp", "ArrowUp", "ArrowDown", "ArrowDown",
    "ArrowLeft", "ArrowRight", "ArrowLeft", "ArrowRight",
    "b", "a"
  ]

  /** The new `konamiIndex` and whether the easter egg fired. */
  datatype KeyResult = KeyResult(index: nat, fired: bool)

  /** The keydown handler. */
  function Step(index: nat, key: string): (r: KeyResult)
    requires index < |KonamiCode|
    ensures r.index < |KonamiCode|
    ensures r.fired <==> index == |KonamiCode| - 1 && key == KonamiCode[index]
  {
    if key == KonamiCode[index] then
      var next := index + 1;
      if next == |KonamiCode| then KeyResult(0, true) else KeyResult(next, false)
    else
      KeyResult(0, false)
  }

  /** The index after a sequence of keys from page load, and how often the egg fired. */
  datatype Progress = Progress(index: nat, fires: nat)

  function Feed(keys: seq<string>): (r: Progress)
    ensures r.index < |KonamiCode|
  {
    if keys == [] then Progress(0, 0)
    else
      var p := Feed(keys[..|keys| - 1]);
      var k := Step(p.index, keys[|keys| - 1]);
      Progress(k.index, p.fires + if k.fired then 1 else 0)
  }

  /**
   * A matching key advances by one; a key that does not match resets to 0,
   * even when it is the first key of the code.
   */
  lemma StepCases(index: nat, key: string)
    requires index < |KonamiCode|
    ensures key != KonamiCode[index] ==> Step(index, key) == KeyResult(0, false)
    ensures key == KonamiCode[index] && index + 1 < |KonamiCode| ==>
      Step(index, key) == KeyResult(index + 1, false)
    ensures key == KonamiCode[index] && index + 1 == |KonamiCode| ==>
      Step(index, key) == KeyResult(0, true)
  {
  }

  /** The index always counts keys that are the start of the code, just typed. */
  lemma {:induction false} IndexIsMatchedSuffix(keys: seq<string>)
    ensures var i := Feed(keys).index;
      i <= |keys| && keys[|keys| - i..] == KonamiCode[..i]
  {
    if keys != [] {
      var init := keys[..|keys| - 1];
      IndexIsMatchedSuffix(init);
      var i := Feed(keys).index;
      if i > 0 {
        var j := Feed(init).index;
        assert i == j + 1 && keys[|keys| - 1] == KonamiCode[j];
        assert keys[|keys| - i..] == init[|init| - j..] + [keys[|keys| - 1]];
        assert KonamiCode[..i] == KonamiCode[..j] + [KonamiCode[j]];
      }
    }
  }

  /** The easter egg fires only on a key that completes the whole code. */
  lemma FiresOnlyOnCode(keys: seq<string>)
    requires keys != []
    requires Step(Feed(keys[..|keys| - 1]).index, keys[|keys| - 1]).fired
    ensures |keys| >= |KonamiCode| && keys[|keys| - |KonamiCode|..] == KonamiCode
  {
    var init := keys[..|keys| - 1];
    IndexIsMatchedSuffix(init);
    var j := Feed(init).index;
    assert j == |KonamiCode| - 1;
    assert keys[|keys| - |KonamiCode|..] == init[|init| - j..] + [keys[|keys| - 1]];
    assert KonamiCode == KonamiCode[..j] + [KonamiCode[j]];
  }

  /** From index 0, the first k keys of the code lead to index k, and all ten fire once. */
  lemma {:induction false} CodePrefix(prefix: seq<string>, k: nat)
    requires Feed(prefix).index == 0 && k <= |KonamiCode|
    ensures Feed(prefix + KonamiCode[..k]) ==
      if k < |KonamiCode| then Progress(k, Feed(prefix).fires)
      else Progress(0, Feed(prefix).fires + 1)
  {
    if k == 0 {
      assert prefix + KonamiCode[..0] == prefix;
    } else {
      CodePrefix(prefix, k - 1);
      var keys := prefix + KonamiCode[..k];
      assert keys[..|keys| - 1] == prefix + KonamiCode[..k - 1];
      assert keys[|keys| - 1] == KonamiCode[k - 1];
    }
  }

  /** Typing exactly the code after page load fires the easter egg once and leaves the index at 0. */
  lemma FullCodeFiresOnce()
    ensures Feed(KonamiCode) == Progress(0, 1)
  {
    CodePrefix([], |KonamiCode|);
    assert [] + KonamiCode[..|KonamiCode|] == KonamiCode;
  }

  /** From index 0, keys none of which is the code's first key change nothing. */
  lemma {:induction false} IdleKeys(prefix: seq<string>, rest: seq<string>)
    requires Feed(prefix).index == 0
    requires forall i :: 0 <= i < |rest| ==> rest[i] != KonamiCode[0]
    ensures Feed(prefix + rest) == Feed(prefix)
  {
    if rest == [] {
      assert prefix + rest == prefix;
    } else {
      var init := rest[..|rest| - 1];
      IdleKeys(prefix, init);
      var all := prefix + rest;
      assert all[..|all| - 1] == prefix + init;
      assert all[|all| - 1] == rest[|rest| - 1] != KonamiCode[0];
    }
  }

  /**
   * Because a mismatch is not compared with the first key again, a third
   * ArrowUp throws the match away: one extra ArrowUp before the code means
   * the easter egg never fires.
   */
  lemma ExtraArrowUpMissesCode()
    ensures Feed(["ArrowUp"] + KonamiCode).fires == 0
  {
    var three := ["ArrowUp", "ArrowUp", "ArrowUp"];
    assert three[..2][..1] == ["ArrowUp"] && three[..2] == ["ArrowUp", "ArrowUp"];
    assert Feed(["ArrowUp"][..0]) == Progress(0, 0);
    assert Feed(["ArrowUp"]) == Progress(1, 0);
    assert Feed(three[..2]) == Progress(2, 0);
    assert Feed(three) == Progress(0, 0);
    var rest := KonamiCode[2..];
    assert ["ArrowUp"] + KonamiCode == three + rest;
    IdleKeys(three, rest);
  }

  /** The keydown listener's state: `konamiIndex`, and the keys seen so far. */
  class Listener {
    var konamiIndex: nat
    ghost var keys: seq<string>

    ghost predicate Valid()
      reads this
    {
      konamiIndex == Feed(keys).index
    }

    constructor ()
      ensures Valid() && konamiIndex == 0 && keys == []
    {
      konamiIndex := 0;
      keys := [];
    }

    /** A keydown event; `fired` says whether `activateEasterEgg` was called. */
    method OnKeyDown(key: string) returns (fired: bool)
      requires Valid()
      modifies this
      ensures Valid() && keys == old(keys) + [key]
      ensures KeyResult(konamiIndex, fired) == Step(old(konamiIndex), key)
    {
      keys := keys + [key];
      assert keys[..|keys| - 1] == old(keys);
      fired := false;
      if key == KonamiCode[konamiIndex] {
        konamiIndex := konamiIndex + 1;
        if konamiIndex == |KonamiCode| {
          fired := true;
          konamiIndex := 0;
        }
      } else {
        konamiIndex := 0;
      }
    }
  }
}
