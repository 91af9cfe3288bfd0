/** The action bag of next_action: the identifiers 1..5 (walk left, eat,
    walk right, sleep, idle) drawn without replacement and refilled when empty. */
module ActionBag {

  const WalkLeftAction: int := 1
  const EatAction: int := 2
  const WalkRightAction: int := 3
  const SleepAction: int := 4
  const IdleAction: int := 5

  /** The bag as the app creates it and as every refill restores it. */
  const FullBag: seq<int> := [1, 2, 3, 4, 5]

  /** Each action occurs once in the full bag. */
  lemma FullBagCounts()
    ensures forall v :: multiset(FullBag)[v] == if 1 <= v <= 5 then 1 else 0
  {
    assert multiset(FullBag) == multiset{1, 2, 3, 4, 5};
  }

  predicate NoDup(s: seq<int>) {
    forall i, j :: 0 <= i < j < |s| ==> s[i] != s[j]
  }

  /** What a bag may hold: each of 1..5 at most once. */
  predicate WellFormed(bag: seq<int>) {
    multiset(bag) <= multiset(FullBag)
  }

  /** Being well formed is being a duplicate-free list of action identifiers. */
  lemma {:induction false} WellFormedMeans(bag: seq<int>)
    ensures WellFormed(bag) <==> NoDup(bag) && forall v :: v in bag ==> 1 <= v <= 5
  {
    if WellFormed(bag) {
      forall i, j | 0 <= i < j < |bag| ensures bag[i] != bag[j] {
        if bag[i] == bag[j] {
          TwiceInMultiset(bag, i, j);
        }
      }
      forall v | v in bag ensures 1 <= v <= 5 {
        assert v in multiset(bag);
        assert v in multiset(FullBag);
      }
    }
    if NoDup(bag) && forall v :: v in bag ==> 1 <= v <= 5 {
      NoDupWithinRange(bag);
    }
  }

  /** Two equal entries count twice. */
  lemma TwiceInMultiset(s: seq<int>, i: int, j: int)
    requires 0 <= i < j < |s| && s[i] == s[j]
    ensures multiset(s)[s[i]] >= 2
  {
    var v := s[i];
    assert s == s[..i] + [v] + s[i + 1..j] + [v] + s[j + 1..];
  }

  lemma {:induction false} NoDupWithinRange(bag: seq<int>)
    requires NoDup(bag) && forall v :: v in bag ==> 1 <= v <= 5
    ensures multiset(bag) <= multiset(FullBag)
  {
    if bag != [] {
      var v, rest := bag[0], bag[1..];
      assert NoDup(rest) by {
        forall i, j | 0 <= i < j < |rest| ensures rest[i] != rest[j] {
          assert rest[i] == bag[i + 1] && rest[j] == bag[j + 1];
        }
      }
      assert forall w :: w in rest ==> w in bag;
      NoDupWithinRange(rest);
      assert v !in rest;
      var mb, mr, mf := multiset(bag), multiset(rest), multiset(FullBag);
      assert mr[v] == 0;
      assert mb == multiset{v} + mr by {
        assert bag == [v] + rest;
      }
      assert mf[v] == 1 by {
        assert v in bag;
      }
      forall w ensures mb[w] <= mf[w] {
        if w == v {
          assert mb[w] == 1;
        } else {
          assert mb[w] == mr[w];
        }
      }
    }
  }

  /** `if not self.action_bag: self.action_bag = [1, 2, 3, 4, 5]` */
  function Refilled(bag: seq<int>): (r: seq<int>)
    ensures r != []
    ensures bag == [] ==> r == FullBag
    ensures bag != [] ==> r == bag
  {
    if bag == [] then FullBag else bag
  }

  /** The index of the first occurrence of `v` in `s`. */
  function FirstIndex(s: seq<int>, v: int): (i: nat)
    requires v in s
    ensures i < |s| && s[i] == v && v !in s[..i]
  {
    if s[0] == v then 0
    else
      var j := FirstIndex(s[1..], v);
      assert s[..j + 1] == [s[0]] + s[1..][..j];
      j + 1
  }

  /** Python's list.remove(v): drops the first occurrence of `v` (RemoveDropsFirst). */
  function Remove(s: seq<int>, v: int): (r: seq<int>)
    requires v in s
    ensures |r| == |s| - 1
    ensures s[0] == v ==> r == s[1..]
    ensures s[0] != v ==> r[0] == s[0]
  {
    if s[0] == v then
      assert s == [s[0]] + s[1..];
      s[1..]
    else
      var r := [s[0]] + Remove(s[1..], v);
      assert s == [s[0]] + s[1..];
      r
  }

  /** list.remove(v) leaves what stands before the first `v` and what stands
      after it, in order. */
  lemma {:induction false} RemoveDropsFirst(s: seq<int>, v: int)
    requires v in s
    ensures Remove(s, v) == s[..FirstIndex(s, v)] + s[FirstIndex(s, v) + 1..]
    decreases |s|
  {
    if s[0] != v {
      RemoveDropsFirst(s[1..], v);
      var j := FirstIndex(s[1..], v);
      assert s[..j + 1] == [s[0]] + s[1..][..j];
      assert s[j + 2..] == s[1..][j + 1..];
    }
  }

  /** Removing takes exactly one `v` out of the list and leaves every other count alone. */
  lemma {:induction false} RemoveCounts(s: seq<int>, v: int)
    requires v in s
    ensures multiset(Remove(s, v)) == multiset(s) - multiset{v}
    decreases |s|
  {
    assert s == [s[0]] + s[1..];
    if s[0] != v {
      RemoveCounts(s[1..], v);
      assert Remove(s, v) == [s[0]] + Remove(s[1..], v);
    }
  }

  /** One unpaused selection: refill if empty, then take out the chosen action. */
  function Draw(bag: seq<int>, choice: int): (r: seq<int>)
    requires choice in Refilled(bag)
  {
    Remove(Refilled(bag), choice)
  }

  /** A draw keeps the bag well formed and takes out exactly the chosen action:
      what remains is what the (refilled) bag held, less that action. */
  lemma DrawKeepsWellFormed(bag: seq<int>, choice: int)
    requires WellFormed(bag) && choice in Refilled(bag)
    ensures WellFormed(Draw(bag, choice))
    ensures choice !in Draw(bag, choice)
    ensures |Draw(bag, choice)| == |Refilled(bag)| - 1
    ensures forall v :: v in Draw(bag, choice) <==> v in Refilled(bag) && v != choice
  {
    var full := Refilled(bag);
    assert WellFormed(full);
    RemoveFromWellFormed(full, choice);
  }

  lemma RemoveFromWellFormed(full: seq<int>, choice: int)
    requires WellFormed(full) && choice in full
    ensures WellFormed(Remove(full, choice))
    ensures forall v :: v in Remove(full, choice) <==> v in full && v != choice
  {
    var r := Remove(full, choice);
    RemoveCounts(full, choice);
    var mr, mf := multiset(r), multiset(full);
    assert mr == mf - multiset{choice};
    assert mf[choice] <= 1 by {
      assert mf[choice] <= multiset(FullBag)[choice];
    }
    assert mr[choice] == 0;
    forall v ensures v in r <==> v in full && v != choice {
      assert v in r <==> v in mr;
      assert v in full <==> v in mf;
    }
  }

  /** `choices` is a sequence of selections each of which was in the bag when drawn. */
  predicate ValidDraws(bag: seq<int>, choices: seq<int>)
    decreases |choices|
  {
    choices == [] || (choices[0] in Refilled(bag) && ValidDraws(Draw(bag, choices[0]), choices[1..]))
  }

  /** The bag after a sequence of selections. */
  function DrawAll(bag: seq<int>, choices: seq<int>): seq<int>
    requires ValidDraws(bag, choices)
    decreases |choices|
  {
    if choices == [] then bag else DrawAll(Draw(bag, choices[0]), choices[1..])
  }

  /** Until the bag runs out nothing is refilled: up to |bag| selections take out
      exactly the chosen actions, so together with what is left they are the bag. */
  lemma {:induction false} DrawsWithinBag(bag: seq<int>, choices: seq<int>)
    requires |choices| <= |bag| && ValidDraws(bag, choices)
    ensures multiset(choices) + multiset(DrawAll(bag, choices)) == multiset(bag)
    ensures |DrawAll(bag, choices)| == |bag| - |choices|
    decreases |choices|
  {
    if choices != [] {
      var c, rest := choices[0], choices[1..];
      assert Refilled(bag) == bag;
      var next := Remove(bag, c);
      assert ValidDraws(next, rest);
      DrawsWithinBag(next, rest);
      var left := DrawAll(next, rest);
      assert DrawAll(bag, choices) == left;
      var mc, mr, ml, mn, mb := multiset(choices), multiset(rest), multiset(left), multiset(next), multiset(bag);
      assert mr + ml == mn;
      assert mc == multiset{c} + mr by {
        assert choices == [c] + rest;
      }
      RemoveRestores(bag, c);
      assert mc + ml == mb;
    }
  }

  lemma RemoveRestores(bag: seq<int>, c: int)
    requires c in bag
    ensures multiset{c} + multiset(Remove(bag, c)) == multiset(bag)
  {
    var m := multiset(bag);
    assert c in m;
    RemoveCounts(bag, c);
    assert multiset(Remove(bag, c)) == m - multiset{c};
  }

  /** Within one round (starting from a well-formed bag, at most |bag| selections)
      no action is chosen twice. */
  lemma NoRepeatWithinRound(bag: seq<int>, choices: seq<int>)
    requires WellFormed(bag) && |choices| <= |bag| && ValidDraws(bag, choices)
    ensures NoDup(choices)
    ensures forall v :: v in choices ==> v in bag
  {
    DrawsWithinBag(bag, choices);
    assert multiset(choices) <= multiset(FullBag);
    WellFormedMeans(choices);
    forall v | v in choices ensures v in bag {
      assert v in multiset(choices);
    }
  }

  /** Five selections from the full bag choose each of 1..5 exactly once and
      leave the bag empty. */
  lemma FullRound(choices: seq<int>)
    requires |choices| == 5 && ValidDraws(FullBag, choices)
    ensures multiset(choices) == multiset(FullBag)
    ensures DrawAll(FullBag, choices) == []
  {
    DrawsWithinBag(FullBag, choices);
  }

  /** How many times a sequence of selections refilled the bag. */
  function Refills(bag: seq<int>, choices: seq<int>): nat
    requires ValidDraws(bag, choices)
    decreases |choices|
  {
    if choices == [] then 0
    else (if bag == [] then 1 else 0) + Refills(Draw(bag, choices[0]), choices[1..])
  }

  /** A well-formed bag holds at most the five actions. */
  lemma WellFormedSize(bag: seq<int>)
    requires WellFormed(bag)
    ensures |bag| <= 5
  {
    var mb, mf := multiset(bag), multiset(FullBag);
    assert |mb| <= |mf| by {
      assert mf == mb + (mf - mb);
    }
  }

  /** One draw, counted per action: the chosen action moves out of the bag,
      and a refill adds one of each. */
  lemma DrawCounts(bag: seq<int>, c: int)
    requires c in Refilled(bag)
    ensures forall v :: 1 <= v <= 5 ==>
      multiset{c}[v] + multiset(Draw(bag, c))[v] == multiset(bag)[v] + (if bag == [] then 1 else 0)
  {
    FullBagCounts();
    var full := Refilled(bag);
    RemoveCounts(full, c);
    var mn, mfull, mb := multiset(Draw(bag, c)), multiset(full), multiset(bag);
    assert mn == mfull - multiset{c};
    assert c in mfull;
    assert bag == [] ==> mb == multiset{};
  }

  /** Sizes over a sequence of selections: the bag stays well formed, every
      refill adds five, and after at least one draw fewer than five remain. */
  lemma {:induction false} AccountingSize(bag: seq<int>, choices: seq<int>)
    requires WellFormed(bag) && ValidDraws(bag, choices)
    ensures WellFormed(DrawAll(bag, choices))
    ensures |choices| + |DrawAll(bag, choices)| == |bag| + 5 * Refills(bag, choices)
    ensures choices != [] ==> |DrawAll(bag, choices)| < 5
    decreases |choices|
  {
    if choices != [] {
      var c, rest := choices[0], choices[1..];
      DrawKeepsWellFormed(bag, c);
      WellFormedSize(Refilled(bag));
      AccountingSize(Draw(bag, c), rest);
    }
  }

  /** Counts over a sequence of selections: for every action, what is drawn
      plus what is left is what the bag held plus one per refill. */
  lemma {:induction false} AccountingCounts(bag: seq<int>, choices: seq<int>)
    requires ValidDraws(bag, choices)
    ensures forall v :: 1 <= v <= 5 ==>
      multiset(choices)[v] + multiset(DrawAll(bag, choices))[v] == multiset(bag)[v] + Refills(bag, choices)
    decreases |choices|
  {
    if choices != [] {
      var c, rest := choices[0], choices[1..];
      assert choices == [c] + rest;
      var next := Draw(bag, c);
      var left := DrawAll(next, rest);
      assert DrawAll(bag, choices) == left;
      var r := Refills(next, rest);
      assert Refills(bag, choices) == (if bag == [] then 1 else 0) + r;
      var mc, mr, ml, mn := multiset(choices), multiset(rest), multiset(left), multiset(next);
      assert mc == multiset{c} + mr;
      AccountingCounts(next, rest);
      DrawCounts(bag, c);
      forall v | 1 <= v <= 5
        ensures mc[v] + ml[v] == multiset(bag)[v] + Refills(bag, choices)
      {
        assert mc[v] == multiset{c}[v] + mr[v];
        assert mr[v] + ml[v] == mn[v] + r;
      }
    }
  }

  /** Fairness: over 5m consecutive selections from the full bag each of the
      five actions is chosen exactly m times, and for m > 0 the bag is then empty. */
  lemma FairRounds(choices: seq<int>, m: nat)
    requires |choices| == 5 * m && ValidDraws(FullBag, choices)
    ensures forall v :: 1 <= v <= 5 ==> multiset(choices)[v] == m
    ensures DrawAll(FullBag, choices) == if m == 0 then FullBag else []
  {
    FullBagCounts();
    assert WellFormed(FullBag);
    AccountingSize(FullBag, choices);
    AccountingCounts(FullBag, choices);
    if m > 0 {
      var d := DrawAll(FullBag, choices);
      assert |d| == 5 * (1 + Refills(FullBag, choices) - m);
    }
  }

}
