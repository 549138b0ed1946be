/**
 * Spending dice on a build (src/utils/resourceConsumption.js).
 *
 * A build marks dice as used: first the dice that produce a required kind
 * exactly, lowest index first, then two gold dice for every unit still short.
 * Faces and locks never change, and a die already used is never picked again.
 */
module ResourceConsumption {
  import opened Options
  import opened ResourceValidation

  function Min(a: nat, b: nat): nat {
    if a <= b then a else b
  }

  /** A die that can pay for one unit of `k`: still unused and showing `k`. */
  predicate Takes(d: Die, k: Resource) {
    !d.used && KindOf(d) == Some(k)
  }

  /** Number of unused dice showing `k`. */
  function UnusedCount(dice: seq<Die>, k: Resource): (n: nat)
    ensures n <= |dice|
  {
    if dice == [] then 0
    else UnusedCount(dice[..|dice| - 1], k) + (if Takes(dice[|dice| - 1], k) then 1 else 0)
  }

  /** The unused dice, in order. */
  function Unused(dice: seq<Die>): seq<Die> {
    if dice == [] then []
    else
      var d := dice[|dice| - 1];
      Unused(dice[..|dice| - 1]) + (if d.used then [] else [d])
  }

  /** The resource table of the unused dice. */
  function Available(dice: seq<Die>): map<Resource, nat> {
    Counts(Unused(dice))
  }

  /** `after` differs from `before` only in `used` flags turned on: same length,
      same faces, same locks, and a used die stays used. */
  predicate OnlySpends(before: seq<Die>, after: seq<Die>) {
    && |after| == |before|
    && forall i :: 0 <= i < |before| ==>
         after[i].value == before[i].value && after[i].locked == before[i].locked &&
         (before[i].used ==> after[i] == before[i]) &&
         (after[i] != before[i] ==> after[i] == before[i].(used := true))
  }

  // ---------------------------------------------------------------------------
  // Availability (getAvailableResources)

  /** Counts the resources of the unused dice only. */
  method GetAvailableResources(dice: seq<Die>) returns (resources: map<Resource, nat>)
    ensures resources == Available(dice)
    ensures forall k :: k in resources ==> resources[k] == UnusedCount(dice, k)
  {
    resources := map[Lumber := 0, Brick := 0, Wool := 0, Wheat := 0, Ore := 0, Gold := 0];
    for i := 0 to |dice|
      invariant resources == Available(dice[..i])
    {
      resources := CountNext(dice, i, resources);
    }
    assert dice[..|dice|] == dice;
    forall k | k in resources ensures resources[k] == UnusedCount(dice, k) {
      UnusedCountIsCount(dice, k);
    }
  }

  /** One turn of that loop: die `i`, if unused, adds one to the count of the
      resource it shows. */
  method CountNext(dice: seq<Die>, i: nat, resources: map<Resource, nat>) returns (resources': map<Resource, nat>)
    requires i < |dice| && resources == Available(dice[..i])
    ensures resources' == Available(dice[..i + 1])
  {
    var d := dice[i];
    assert dice[..i + 1] == dice[..i] + [d];
    var u := Unused(dice[..i]);
    resources' := resources;
    if !d.used {
      assert Unused(dice[..i + 1]) == u + [d];
      CountsSnoc(u, d);
      var r := ResourceOf(d.value);
      if r.Some? {
        resources' := resources[r.value := resources[r.value] + 1];
      }
    } else {
      assert Unused(dice[..i + 1]) == u;
    }
  }

  /** Counting the unused dice of a kind is counting that kind among Unused(dice). */
  lemma {:induction false} UnusedCountIsCount(dice: seq<Die>, k: Resource)
    ensures UnusedCount(dice, k) == KindCount(Unused(dice), k)
  {
    if dice != [] {
      UnusedCountIsCount(dice[..|dice| - 1], k);
      UnusedKindStep(dice, k);
    }
  }

  /** The last die adds one to the count of `k` among the unused dice exactly
      when it can pay for `k`. */
  lemma UnusedKindStep(dice: seq<Die>, k: Resource)
    requires dice != []
    ensures KindCount(Unused(dice), k) ==
      KindCount(Unused(dice[..|dice| - 1]), k) + (if Takes(dice[|dice| - 1], k) then 1 else 0)
  {
    var u := Unused(dice[..|dice| - 1]);
    var d := dice[|dice| - 1];
    if !d.used {
      assert Unused(dice) == u + [d];
      KindCountSnoc(u, d, k);
    } else {
      assert Unused(dice) == u;
    }
  }

  /** The table reports, for every name, the unused dice showing it; a name no
      face produces reports zero. */
  lemma AvailableHave(dice: seq<Die>, k: Resource)
    ensures Have(Available(dice), k) == UnusedCount(dice, k)
  {
    UnusedCountIsCount(dice, k);
    if k !in DiceKinds {
      NoDieShowsOther(dice, k);
    }
  }

  /** No face produces a name outside the six dice kinds. */
  lemma {:induction false} NoDieShowsOther(dice: seq<Die>, k: Resource)
    requires k !in DiceKinds
    ensures UnusedCount(dice, k) == 0
  {
    if dice != [] {
      NoDieShowsOther(dice[..|dice| - 1], k);
    }
  }

  /** With every die used, or no dice at all, every count is zero. */
  lemma {:induction false} NothingAvailable(dice: seq<Die>)
    requires forall i :: 0 <= i < |dice| ==> dice[i].used
    ensures Unused(dice) == []
    ensures forall k :: k in Available(dice) ==> Available(dice)[k] == 0
  {
    if dice != [] {
      NothingAvailable(dice[..|dice| - 1]);
    }
  }

  // ---------------------------------------------------------------------------
  // Marking one kind

  /** Marks used the first `n` dice, in index order, that can pay for `k`
      (fewer when fewer exist). */
  function MarkKind(dice: seq<Die>, k: Resource, n: nat): (r: seq<Die>)
    ensures |r| == |dice|
  {
    if dice == [] then []
    else
      var p := dice[..|dice| - 1];
      var d := dice[|dice| - 1];
      MarkKind(p, k, n) + [if Takes(d, k) && UnusedCount(p, k) < n then d.(used := true) else d]
  }

  /** Die `i` is marked exactly when it can pay for `k` and fewer than `n` such
      dice come before it: the lowest-indexed ones are taken. */
  lemma {:induction false} MarkKindAt(dice: seq<Die>, k: Resource, n: nat, i: nat)
    requires i < |dice|
    ensures MarkKind(dice, k, n)[i] ==
      if Takes(dice[i], k) && UnusedCount(dice[..i], k) < n then dice[i].(used := true) else dice[i]
  {
    var p := dice[..|dice| - 1];
    if i < |p| {
      MarkKindAt(p, k, n, i);
      assert p[..i] == dice[..i];
    } else {
      assert p == dice[..i];
    }
  }

  /** The unused count of a prefix never exceeds that of the whole. */
  lemma {:induction false} UnusedCountPrefix(dice: seq<Die>, i: nat, k: Resource)
    requires i <= |dice|
    ensures UnusedCount(dice[..i], k) <= UnusedCount(dice, k)
  {
    if i < |dice| {
      UnusedCountPrefix(dice[..|dice| - 1], i, k);
      assert dice[..|dice| - 1][..i] == dice[..i];
    } else {
      assert dice[..i] == dice;
    }
  }

  /** Once `n` payers have been seen, the rest of the dice stay as they are. */
  lemma {:induction false} MarkKindSaturated(dice: seq<Die>, i: nat, k: Resource, n: nat)
    requires i <= |dice| && UnusedCount(dice[..i], k) >= n
    ensures MarkKind(dice, k, n) == MarkKind(dice[..i], k, n) + dice[i..]
  {
    if i == |dice| {
      assert dice[..i] == dice;
    } else {
      var p := dice[..|dice| - 1];
      assert p[..i] == dice[..i];
      MarkKindSaturated(p, i, k, n);
      UnusedCountPrefix(p, i, k);
      assert dice[i..] == p[i..] + [dice[|dice| - 1]];
    }
  }

  /** Marking one kind only turns on `used` flags, and only of dice that pay for `k`. */
  lemma {:induction false} MarkKindSpends(dice: seq<Die>, k: Resource, n: nat)
    ensures OnlySpends(dice, MarkKind(dice, k, n))
    ensures forall i :: 0 <= i < |dice| && MarkKind(dice, k, n)[i] != dice[i] ==> Takes(dice[i], k)
  {
    forall i | 0 <= i < |dice|
      ensures var r := MarkKind(dice, k, n);
        r[i].value == dice[i].value && r[i].locked == dice[i].locked &&
        (dice[i].used ==> r[i] == dice[i]) &&
        (r[i] != dice[i] ==> r[i] == dice[i].(used := true) && Takes(dice[i], k))
    {
      MarkKindAt(dice, k, n, i);
    }
  }

  /** Marking one kind takes exactly min(n, payers) of its payers. */
  lemma {:induction false} MarkKindCount(dice: seq<Die>, k: Resource, n: nat)
    ensures UnusedCount(MarkKind(dice, k, n), k) == UnusedCount(dice, k) - Min(n, UnusedCount(dice, k))
  {
    if dice != [] {
      var p := dice[..|dice| - 1];
      MarkKindCount(p, k, n);
      var r := MarkKind(dice, k, n);
      assert r[..|r| - 1] == MarkKind(p, k, n);
    }
  }

  /** Marking one kind leaves the count of every other kind as it was. */
  lemma {:induction false} MarkKindOthers(dice: seq<Die>, k: Resource, n: nat, k': Resource)
    requires k' != k
    ensures UnusedCount(MarkKind(dice, k, n), k') == UnusedCount(dice, k')
  {
    if dice != [] {
      var p := dice[..|dice| - 1];
      MarkKindOthers(p, k, n, k');
      var r := MarkKind(dice, k, n);
      assert r[..|r| - 1] == MarkKind(p, k, n);
    }
  }

  /** One more die examined: MarkKind of the longer prefix. */
  lemma MarkKindStep(dice: seq<Die>, i: nat, k: Resource, n: nat)
    requires i < |dice|
    ensures MarkKind(dice[..i + 1], k, n) == MarkKind(dice[..i], k, n) +
      [if Takes(dice[i], k) && UnusedCount(dice[..i], k) < n then dice[i].(used := true) else dice[i]]
    ensures UnusedCount(dice[..i + 1], k) == UnusedCount(dice[..i], k) + (if Takes(dice[i], k) then 1 else 0)
  {
    assert dice[..i + 1][..i] == dice[..i];
  }

  /** One iteration of the marking scan that finds a payer at index `i`. */
  lemma SpendTake(dice: seq<Die>, i: nat, k: Resource, n: nat, updated: seq<Die>, found: nat)
    requires i < |dice| && found < n && Takes(dice[i], k)
    requires updated == MarkKind(dice[..i], k, n) + dice[i..]
    requires found == Min(n, UnusedCount(dice[..i], k))
    ensures updated[i := dice[i].(used := true)] == MarkKind(dice[..i + 1], k, n) + dice[i + 1..]
    ensures found + 1 == Min(n, UnusedCount(dice[..i + 1], k))
  {
    MarkKindStep(dice, i, k, n);
    assert dice[i..] == [dice[i]] + dice[i + 1..];
  }

  /** One iteration of the marking scan that passes over index `i`. */
  lemma SpendSkip(dice: seq<Die>, i: nat, k: Resource, n: nat, updated: seq<Die>, found: nat)
    requires i < |dice| && !Takes(dice[i], k)
    requires updated == MarkKind(dice[..i], k, n) + dice[i..]
    requires found == Min(n, UnusedCount(dice[..i], k))
    ensures updated == MarkKind(dice[..i + 1], k, n) + dice[i + 1..]
    ensures found == Min(n, UnusedCount(dice[..i + 1], k))
  {
    MarkKindStep(dice, i, k, n);
    assert dice[i..] == [dice[i]] + dice[i + 1..];
  }

  /** Marks used the first `n` dice that can pay for `k`; reports how many it found. */
  method SpendFirst(dice: seq<Die>, k: Resource, n: nat) returns (updated: seq<Die>, found: nat)
    ensures updated == MarkKind(dice, k, n)
    ensures found == Min(n, UnusedCount(dice, k))
  {
    updated, found := dice, 0;
    var i := 0;
    while i < |updated| && found < n
      invariant 0 <= i <= |dice| && |updated| == |dice|
      invariant updated == MarkKind(dice[..i], k, n) + dice[i..]
      invariant found == Min(n, UnusedCount(dice[..i], k))
    {
      updated, found := SpendNext(dice, i, k, n, updated, found);
      i := i + 1;
    }
    SpendDone(dice, i, k, n, updated, found);
  }

  /** One turn of the marking scan: die `i` is marked when it can pay for `k`,
      which carries the scan's invariant from index `i` to `i + 1`. */
  method SpendNext(dice: seq<Die>, i: nat, k: Resource, n: nat, updated: seq<Die>, found: nat)
    returns (updated': seq<Die>, found': nat)
    requires i < |dice| && found < n
    requires updated == MarkKind(dice[..i], k, n) + dice[i..]
    requires found == Min(n, UnusedCount(dice[..i], k))
    ensures updated' == MarkKind(dice[..i + 1], k, n) + dice[i + 1..]
    ensures found' == Min(n, UnusedCount(dice[..i + 1], k))
  {
    assert updated[i] == dice[i];
    if !updated[i].used && ResourceOf(updated[i].value) == Some(k) {
      SpendTake(dice, i, k, n, updated, found);
      updated' := updated[i := updated[i].(used := true)];
      found' := found + 1;
    } else {
      SpendSkip(dice, i, k, n, updated, found);
      updated', found' := updated, found;
    }
  }

  /** The marking scan stops at the end of the dice or once `n` payers are
      marked; either way it has marked what MarkKind marks. */
  lemma SpendDone(dice: seq<Die>, i: nat, k: Resource, n: nat, updated: seq<Die>, found: nat)
    requires i <= |dice|
    requires updated == MarkKind(dice[..i], k, n) + dice[i..]
    requires found == Min(n, UnusedCount(dice[..i], k))
    requires i == |dice| || found >= n
    ensures updated == MarkKind(dice, k, n)
    ensures found == Min(n, UnusedCount(dice, k))
  {
    if i == |dice| {
      assert dice[..i] == dice;
    } else {
      MarkKindSaturated(dice, i, k, n);
      UnusedCountPrefix(dice, i, k);
    }
  }

  // ---------------------------------------------------------------------------
  // The two passes (consumeResources)

  /** Pass one over the kinds `ks`: each takes its own units, exact matches only. */
  function ExactPass(dice: seq<Die>, ks: seq<Resource>, required: seq<Resource>): (r: seq<Die>)
    ensures |r| == |dice|
  {
    if ks == [] then dice
    else
      var k := ks[|ks| - 1];
      MarkKind(ExactPass(dice, ks[..|ks| - 1], required), k, Need(required, k))
  }

  /** The units pass one leaves short over the kinds `ks`. */
  function ExactShortage(dice: seq<Die>, ks: seq<Resource>, required: seq<Resource>): nat {
    if ks == [] then 0
    else
      var k := ks[|ks| - 1];
      var p := ks[..|ks| - 1];
      ExactShortage(dice, p, required) + Shortfall(Need(required, k), UnusedCount(ExactPass(dice, p, required), k))
  }

  /** The dice after a build of `required`: pass one, then two gold dice per unit short. */
  function Consumed(dice: seq<Die>, required: seq<Resource>): seq<Die> {
    var ks := Distinct(required);
    var afterExact := ExactPass(dice, ks, required);
    var goldNeeded := 2 * ExactShortage(dice, ks, required);
    if goldNeeded > 0 then MarkKind(afterExact, Gold, goldNeeded) else afterExact
  }

  function Sum(s: seq<nat>): nat {
    if s == [] then 0 else Sum(s[..|s| - 1]) + s[|s| - 1]
  }

  /** Marks the dice a build of `required` spends and returns the new dice list;
      the list passed in is a value and stays as it was. */
  method ConsumeResources(dice: seq<Die>, required: seq<Resource>) returns (updated: seq<Die>)
    ensures updated == Consumed(dice, required)
    ensures OnlySpends(dice, updated)
    ensures forall i :: 0 <= i < |dice| && updated[i] != dice[i] ==>
      KindOf(dice[i]).Some? && (KindOf(dice[i]).value in required || KindOf(dice[i]).value == Gold)
  {
    var kinds, needed := TallyRequired(required);
    var shortages;
    updated, shortages := SpendExact(dice, kinds, needed, required);
    var totalShortage := Sum(shortages);
    var goldNeeded := totalShortage * 2;
    if goldNeeded > 0 {
      var goldConsumed;
      updated, goldConsumed := SpendFirst(updated, Gold, goldNeeded);
    }
    ConsumedSpends(dice, required);
  }

  /** The first loop of consumeResources: for each tallied kind, spends up to
      the units needed from the dice showing it, and records what was short. */
  method SpendExact(dice: seq<Die>, kinds: seq<Resource>, needed: map<Resource, nat>, required: seq<Resource>)
    returns (updated: seq<Die>, shortages: seq<nat>)
    requires forall k :: k in kinds ==> k in needed && needed[k] == Need(required, k)
    ensures updated == ExactPass(dice, kinds, required)
    ensures Sum(shortages) == ExactShortage(dice, kinds, required)
  {
    updated := dice;
    shortages := [];
    for j := 0 to |kinds|
      invariant updated == ExactPass(dice, kinds[..j], required)
      invariant Sum(shortages) == ExactShortage(dice, kinds[..j], required)
    {
      var k := kinds[j];
      assert kinds[..j + 1][..j] == kinds[..j];
      var count := needed[k];
      var found;
      updated, found := SpendFirst(updated, k, count);
      var shortage := count - found;
      if shortage > 0 {
        shortages := shortages + [shortage];
      }
    }
    assert kinds[..|kinds|] == kinds;
  }

  // ---------------------------------------------------------------------------
  // What a build spends

  /** `b` keeps the faces of `a`, and every die of `a` showing `k` is unchanged in `b`. */
  predicate AgreeOn(a: seq<Die>, b: seq<Die>, k: Resource) {
    && |a| == |b|
    && (forall j :: 0 <= j < |a| ==> a[j].value == b[j].value)
    && (forall j :: 0 <= j < |a| && KindOf(a[j]) == Some(k) ==> b[j] == a[j])
  }

  lemma OnlySpendsTrans(a: seq<Die>, b: seq<Die>, c: seq<Die>)
    requires OnlySpends(a, b) && OnlySpends(b, c)
    ensures OnlySpends(a, c)
  {
  }

  /** Two dice lists that agree on kind `k` have the same unused count of `k` in every prefix. */
  lemma {:induction false} UnusedCountAgree(a: seq<Die>, b: seq<Die>, k: Resource, i: nat)
    requires AgreeOn(a, b, k) && i <= |a|
    ensures UnusedCount(a[..i], k) == UnusedCount(b[..i], k)
  {
    if i > 0 {
      UnusedCountAgree(a, b, k, i - 1);
      assert a[..i][..i - 1] == a[..i - 1];
      assert b[..i][..i - 1] == b[..i - 1];
      assert KindOf(a[i - 1]) == KindOf(b[i - 1]);
    }
  }

  /** Pass one only spends dice, and only dice showing one of the kinds `ks`. */
  lemma {:induction false} ExactPassSpends(dice: seq<Die>, ks: seq<Resource>, required: seq<Resource>)
    ensures OnlySpends(dice, ExactPass(dice, ks, required))
    ensures forall i :: 0 <= i < |dice| && ExactPass(dice, ks, required)[i] != dice[i] ==>
      KindOf(dice[i]).Some? && KindOf(dice[i]).value in ks
  {
    if ks != [] {
      var p := ks[..|ks| - 1];
      var k := ks[|ks| - 1];
      var prev := ExactPass(dice, p, required);
      var r := ExactPass(dice, ks, required);
      ExactPassSpends(dice, p, required);
      MarkKindSpends(prev, k, Need(required, k));
      OnlySpendsTrans(dice, prev, r);
      forall i | 0 <= i < |dice| && r[i] != dice[i]
        ensures KindOf(dice[i]).Some? && KindOf(dice[i]).value in ks
      {
        assert KindOf(prev[i]) == KindOf(dice[i]);
        if prev[i] == dice[i] {
          assert Takes(prev[i], k);
        } else {
          assert KindOf(dice[i]).value in p;
        }
      }
    }
  }

  /** Pass one leaves the dice of a kind outside `ks` exactly as they were. */
  lemma ExactPassAgrees(dice: seq<Die>, ks: seq<Resource>, required: seq<Resource>, k: Resource)
    requires k !in ks
    ensures AgreeOn(dice, ExactPass(dice, ks, required), k)
  {
    ExactPassSpends(dice, ks, required);
  }

  /** Pass one, die by die: a die showing `k` is spent exactly when `k` is
      required, the die is unused, and fewer than Need(k) unused `k` dice precede it. */
  lemma {:induction false} ExactPassAt(dice: seq<Die>, ks: seq<Resource>, required: seq<Resource>, i: nat)
    requires Unique(ks) && i < |dice| && KindOf(dice[i]).Some?
    ensures var k := KindOf(dice[i]).value;
      ExactPass(dice, ks, required)[i] ==
        if k in ks && Takes(dice[i], k) && UnusedCount(dice[..i], k) < Need(required, k)
        then dice[i].(used := true) else dice[i]
  {
    if ks != [] {
      var k := KindOf(dice[i]).value;
      var p := ks[..|ks| - 1];
      var last := ks[|ks| - 1];
      var prev := ExactPass(dice, p, required);
      assert Unique(p);
      ExactPassAt(dice, p, required, i);
      ExactPassSpends(dice, p, required);
      MarkKindAt(prev, last, Need(required, last), i);
      if last == k {
        assert k !in p by {
          forall j | 0 <= j < |p| ensures p[j] != k {
            assert p[j] == ks[j];
          }
        }
        ExactPassAgrees(dice, p, required, k);
        UnusedCountAgree(dice, prev, k, i);
      } else {
        assert KindOf(prev[i]) == Some(k);
        assert k in ks <==> k in p;
      }
    }
  }

  /** The units pass one leaves short are the shortage of the requirement
      measured against the unused dice. */
  lemma {:induction false} ExactShortageIsShortage(dice: seq<Die>, ks: seq<Resource>, required: seq<Resource>)
    requires Unique(ks)
    ensures ExactShortage(dice, ks, required) == TotalShortage(ks, required, Available(dice))
  {
    if ks != [] {
      var p := ks[..|ks| - 1];
      var k := ks[|ks| - 1];
      var prev := ExactPass(dice, p, required);
      assert Unique(p);
      ExactShortageIsShortage(dice, p, required);
      assert k !in p by {
        forall j | 0 <= j < |p| ensures p[j] != k {
          assert p[j] == ks[j];
        }
      }
      ExactPassAgrees(dice, p, required, k);
      UnusedCountAgree(dice, prev, k, |dice|);
      assert dice[..|dice|] == dice && prev[..|prev|] == prev;
      AvailableHave(dice, k);
    }
  }

  /** How many dice of kind `k` a build of `required` may spend: the units it
      names for an ordinary kind, two per unit short for gold. */
  function Quota(required: seq<Resource>, available: map<Resource, nat>, k: Resource): nat {
    if k == Gold then 2 * Shortage(required, available) else Need(required, k)
  }

  /** consumeResources, die by die (for a requirement that does not name gold):
      a die showing `k` is spent exactly when it is unused and fewer than
      Quota(k) unused dice of `k` come before it; every other die is unchanged. */
  lemma ConsumedAt(dice: seq<Die>, required: seq<Resource>, i: nat)
    requires Gold !in required && i < |dice|
    ensures Consumed(dice, required)[i] ==
      if KindOf(dice[i]).Some? && Takes(dice[i], KindOf(dice[i]).value) &&
         UnusedCount(dice[..i], KindOf(dice[i]).value) < Quota(required, Available(dice), KindOf(dice[i]).value)
      then dice[i].(used := true) else dice[i]
  {
    var ks := Distinct(required);
    var afterExact := ExactPass(dice, ks, required);
    ExactShortageIsShortage(dice, ks, required);
    var goldNeeded := 2 * ExactShortage(dice, ks, required);
    ExactPassSpends(dice, ks, required);
    MarkKindAt(afterExact, Gold, goldNeeded, i);
    if KindOf(dice[i]).Some? {
      var k := KindOf(dice[i]).value;
      if k == Gold {
        ExactPassAgrees(dice, ks, required, Gold);
        UnusedCountAgree(dice, afterExact, Gold, i);
      } else {
        ExactPassAt(dice, ks, required, i);
        assert KindOf(afterExact[i]) == Some(k);
      }
    }
  }

  /** The dice a build leaves: faces and locks kept, used dice untouched, and
      only dice showing a required kind or gold spent. */
  lemma ConsumedSpends(dice: seq<Die>, required: seq<Resource>)
    ensures OnlySpends(dice, Consumed(dice, required))
    ensures forall i :: 0 <= i < |dice| && Consumed(dice, required)[i] != dice[i] ==>
      KindOf(dice[i]).Some? && (KindOf(dice[i]).value in required || KindOf(dice[i]).value == Gold)
  {
    var ks := Distinct(required);
    var afterExact := ExactPass(dice, ks, required);
    ExactPassSpends(dice, ks, required);
    MarkKindSpends(afterExact, Gold, 2 * ExactShortage(dice, ks, required));
    OnlySpendsTrans(dice, afterExact, Consumed(dice, required));
  }

  /** An empty requirement spends nothing. */
  lemma ConsumeNothing(dice: seq<Die>)
    ensures Consumed(dice, []) == dice
  {
  }

  /** How many dice of each kind a build spends: min(Quota(k), unused dice of k). */
  lemma ConsumedCounts(dice: seq<Die>, required: seq<Resource>, k: Resource)
    requires Gold !in required
    ensures UnusedCount(Consumed(dice, required), k) ==
      UnusedCount(dice, k) - Min(Quota(required, Available(dice), k), UnusedCount(dice, k))
  {
    var q := Quota(required, Available(dice), k);
    var marked := MarkKind(dice, k, q);
    var after := Consumed(dice, required);
    ConsumedSpends(dice, required);
    forall j | 0 <= j < |dice| && KindOf(marked[j]) == Some(k) ensures after[j] == marked[j] {
      MarkKindAt(dice, k, q, j);
      ConsumedAt(dice, required, j);
    }
    forall j | 0 <= j < |dice| ensures marked[j].value == after[j].value {
      MarkKindAt(dice, k, q, j);
    }
    UnusedCountAgree(marked, after, k, |dice|);
    assert marked[..|dice|] == marked && after[..|dice|] == after;
    MarkKindCount(dice, k, q);
  }

  // ---------------------------------------------------------------------------
  // canBuild against consumeResources

  /** canBuild lets one gold die cover a missing unit, while consumeResources
      spends two: with a lumber die and one gold die, a road (lumber and brick)
      passes canBuild, yet the build spends only the lumber and the single gold
      die, one gold short of the two it charges for the brick. */
  lemma CanBuildUnderpays()
    ensures var dice := [Die(1, false, false), Die(6, false, false)];
      var road := [Lumber, Brick];
      && Shortage(road, Available(dice)) <= Have(Available(dice), Gold)
      && Consumed(dice, road) == [Die(1, false, true), Die(6, false, true)]
      && UnusedCount(dice, Gold) < 2 * Shortage(road, Available(dice))
  {
    RoadShortage();
    RoadConsumed();
  }

  /** The dice of CanBuildUnderpays: one unused lumber die, no brick, one
      unused gold die. */
  lemma RoadDice()
    ensures var dice := [Die(1, false, false), Die(6, false, false)];
      && UnusedCount(dice, Lumber) == 1 && UnusedCount(dice, Brick) == 0 && UnusedCount(dice, Gold) == 1
  {
    var dice := [Die(1, false, false), Die(6, false, false)];
    assert dice[..1] == [Die(1, false, false)];
    assert dice[..1][..0] == [];
  }

  /** The counts behind CanBuildUnderpays: one lumber die, one gold die, and a
      road one brick short. */
  lemma RoadShortage()
    ensures var dice := [Die(1, false, false), Die(6, false, false)];
      && UnusedCount(dice, Lumber) == 1 && UnusedCount(dice, Gold) == 1
      && Have(Available(dice), Gold) == 1
      && Shortage([Lumber, Brick], Available(dice)) == 1
  {
    var dice := [Die(1, false, false), Die(6, false, false)];
    var road := [Lumber, Brick];
    var av := Available(dice);
    assert Have(av, Lumber) == 1 && Have(av, Brick) == 0 && Have(av, Gold) == 1 by {
      RoadDice();
      AvailableHave(dice, Lumber);
      AvailableHave(dice, Brick);
      AvailableHave(dice, Gold);
    }
    ShortageOfPair(Lumber, Brick, av);
    RoadDice();
  }

  /** The dice the road of CanBuildUnderpays spends: both of them. */
  lemma RoadConsumed()
    ensures Consumed([Die(1, false, false), Die(6, false, false)], [Lumber, Brick]) ==
      [Die(1, false, true), Die(6, false, true)]
  {
    var dice := [Die(1, false, false), Die(6, false, false)];
    var c := Consumed(dice, [Lumber, Brick]);
    assert |c| == 2 by {
      ConsumedSpends(dice, [Lumber, Brick]);
    }
    RoadSpendsLumber();
    RoadSpendsGold();
  }

  /** The road of CanBuildUnderpays spends its lumber die. */
  lemma RoadSpendsLumber()
    ensures |Consumed([Die(1, false, false), Die(6, false, false)], [Lumber, Brick])| > 0
    ensures Consumed([Die(1, false, false), Die(6, false, false)], [Lumber, Brick])[0] == Die(1, false, true)
  {
    var dice := [Die(1, false, false), Die(6, false, false)];
    var road := [Lumber, Brick];
    assert Quota(road, Available(dice), Lumber) == 1;
    assert dice[..0] == [];
    DieSpent(dice, road, 0, Lumber);
  }

  /** The road of CanBuildUnderpays spends its gold die. */
  lemma RoadSpendsGold()
    ensures |Consumed([Die(1, false, false), Die(6, false, false)], [Lumber, Brick])| > 1
    ensures Consumed([Die(1, false, false), Die(6, false, false)], [Lumber, Brick])[1] == Die(6, false, true)
  {
    var dice := [Die(1, false, false), Die(6, false, false)];
    var road := [Lumber, Brick];
    RoadShortage();
    assert Quota(road, Available(dice), Gold) == 2;
    assert dice[..1] == [Die(1, false, false)];
    assert UnusedCount(dice[..1], Gold) == 0;
    DieSpent(dice, road, 1, Gold);
  }

  /** A die is spent when it is unused, shows `k`, and fewer than Quota(k)
      unused dice of `k` come before it. */
  lemma DieSpent(dice: seq<Die>, required: seq<Resource>, i: nat, k: Resource)
    requires Gold !in required && i < |dice| && Takes(dice[i], k)
    requires UnusedCount(dice[..i], k) < Quota(required, Available(dice), k)
    ensures |Consumed(dice, required)| == |dice|
    ensures Consumed(dice, required)[i] == dice[i].(used := true)
  {
    ConsumedSpends(dice, required);
    ConsumedAt(dice, required, i);
  }

  /** With gold charged two per missing unit, affordability is exactly what
      makes consumeResources pay in full: the gold it spends is twice the
      shortage precisely when the requirement is affordable at that rate, and
      then every required kind is paid by exact dice up to what is on hand. */
  lemma AffordablePaysInFull(dice: seq<Die>, required: seq<Resource>)
    requires Gold !in required
    ensures var spentGold := UnusedCount(dice, Gold) - UnusedCount(Consumed(dice, required), Gold);
      spentGold == 2 * Shortage(required, Available(dice)) <==> CanAfford(required, Available(dice))
    ensures forall k :: k in required ==>
      UnusedCount(dice, k) - UnusedCount(Consumed(dice, required), k) ==
      Need(required, k) - Shortfall(Need(required, k), UnusedCount(dice, k))
  {
    ConsumedCounts(dice, required, Gold);
    AvailableHave(dice, Gold);
    forall k | k in required
      ensures UnusedCount(dice, k) - UnusedCount(Consumed(dice, required), k) ==
        Need(required, k) - Shortfall(Need(required, k), UnusedCount(dice, k))
    {
      ConsumedCounts(dice, required, k);
    }
  }
}
