/**
 * Resource mapping and affordability checks (src/utils/resourceValidation.js).
 *
 * A die face produces one of six resources; gold is the wildcard. A build
 * requirement is a list of resource names, duplicates meaningful. A resource
 * count table ("available") maps a resource to how many units are at hand;
 * a name missing from the table counts as zero.
 */
module ResourceValidation {
  import opened Options

  /** A resource name. The six kinds a die can produce come first; any other
      name a caller may put in a requirement list is `Other`. */
  datatype Resource = Lumber | Brick | Wool | Wheat | Ore | Gold | Other(name: string)

  /** One die of the dice set: its face, whether it is held, whether it was spent. */
  datatype Die = Die(value: int, locked: bool, used: bool)

  /** The six resources a die can produce. */
  const DiceKinds: set<Resource> := {Lumber, Brick, Wool, Wheat, Ore, Gold}

  /** The resource a face produces; faces other than 1..6 produce nothing. */
  function ResourceOf(face: int): (r: Option<Resource>)
    ensures r.Some? <==> 1 <= face <= 6
    ensures r.Some? ==> r.value in DiceKinds
  {
    if face == 1 then Some(Lumber)
    else if face == 2 then Some(Brick)
    else if face == 3 then Some(Wool)
    else if face == 4 then Some(Wheat)
    else if face == 5 then Some(Ore)
    else if face == 6 then Some(Gold)
    else None
  }

  /** The inverse of ResourceOf on the six dice kinds. */
  function FaceOf(k: Resource): (face: int)
    requires k in DiceKinds
    ensures 1 <= face <= 6 && ResourceOf(face) == Some(k)
  {
    match k
    case Lumber => 1
    case Brick => 2
    case Wool => 3
    case Wheat => 4
    case Ore => 5
    case Gold => 6
  }

  /** The face-to-resource table is one-to-one: a resource comes from exactly one face. */
  lemma ResourceOfInjective(a: int, b: int)
    requires ResourceOf(a).Some? && ResourceOf(a) == ResourceOf(b)
    ensures a == b && FaceOf(ResourceOf(a).value) == a
  {
  }

  /** The resource a die currently shows, if any. */
  function KindOf(d: Die): Option<Resource> {
    ResourceOf(d.value)
  }

  /** The lower-case name a resource carries in the requirement lists. */
  function Name(k: Resource): string {
    match k
    case Lumber => "lumber"
    case Brick => "brick"
    case Wool => "wool"
    case Wheat => "wheat"
    case Ore => "ore"
    case Gold => "gold"
    case Other(n) => n
  }

  // ---------------------------------------------------------------------------
  // Counting resources on dice (getDiceResources)

  /** Number of dice whose face produces `k`, used or not. */
  function KindCount(dice: seq<Die>, k: Resource): (n: nat)
    ensures n <= |dice|
  {
    if dice == [] then 0
    else KindCount(dice[..|dice| - 1], k) + (if KindOf(dice[|dice| - 1]) == Some(k) then 1 else 0)
  }

  /** Appending one die adds one to the count of the kind it shows. */
  lemma KindCountSnoc(dice: seq<Die>, d: Die, k: Resource)
    ensures KindCount(dice + [d], k) == KindCount(dice, k) + (if KindOf(d) == Some(k) then 1 else 0)
  {
    LastOfSnoc(dice, d);
  }

  /** The resource table of a dice list: one entry per dice kind. */
  function Counts(dice: seq<Die>): (c: map<Resource, nat>)
    ensures c.Keys == DiceKinds
  {
    map k | k in DiceKinds :: KindCount(dice, k)
  }

  /** Appending one die adds one to the count of the kind it shows, if any. */
  lemma CountsSnoc(dice: seq<Die>, d: Die)
    ensures Counts(dice + [d]) ==
      if KindOf(d).Some? then Counts(dice)[KindOf(d).value := Counts(dice)[KindOf(d).value] + 1]
      else Counts(dice)
  {
    var c, c' := Counts(dice), Counts(dice + [d]);
    forall k | k in DiceKinds ensures c'[k] == c[k] + (if KindOf(d) == Some(k) then 1 else 0) {
      KindCountSnoc(dice, d, k);
    }
    if KindOf(d).Some? {
      var r := KindOf(d).value;
      assert c' == c[r := c[r] + 1];
    } else {
      assert c' == c;
    }
  }

  /** One more die of a prefix counted. */
  lemma CountsStep(dice: seq<Die>, i: nat)
    requires i < |dice|
    ensures Counts(dice[..i + 1]) ==
      if KindOf(dice[i]).Some? then Counts(dice[..i])[KindOf(dice[i]).value := Counts(dice[..i])[KindOf(dice[i]).value] + 1]
      else Counts(dice[..i])
  {
    assert dice[..i + 1] == dice[..i] + [dice[i]];
    CountsSnoc(dice[..i], dice[i]);
  }

  /** Number of dice whose face is in 1..6. */
  function ValidFaced(dice: seq<Die>): (n: nat)
    ensures n <= |dice|
  {
    if dice == [] then 0
    else ValidFaced(dice[..|dice| - 1]) + (if 1 <= dice[|dice| - 1].value <= 6 then 1 else 0)
  }

  /** The six counts of a table, added up. */
  function TableTotal(c: map<Resource, nat>): nat
    requires DiceKinds <= c.Keys
  {
    c[Lumber] + c[Brick] + c[Wool] + c[Wheat] + c[Ore] + c[Gold]
  }

  /** Counts resources over all dice; the `used` flag plays no part. */
  method GetDiceResources(dice: seq<Die>) returns (resources: map<Resource, nat>)
    ensures resources == Counts(dice)
    ensures TableTotal(resources) == ValidFaced(dice)
  {
    resources := map[Lumber := 0, Brick := 0, Wool := 0, Wheat := 0, Ore := 0, Gold := 0];
    for i := 0 to |dice|
      invariant resources == Counts(dice[..i])
    {
      CountsStep(dice, i);
      var r := ResourceOf(dice[i].value);
      if r.Some? {
        resources := resources[r.value := resources[r.value] + 1];
      }
    }
    assert dice[..|dice|] == dice;
    CountsTotal(dice);
  }

  /** Every die with a face in 1..6 is counted under exactly one kind. */
  lemma {:induction false} CountsTotal(dice: seq<Die>)
    ensures TableTotal(Counts(dice)) == ValidFaced(dice)
  {
    if dice != [] {
      CountsTotal(dice[..|dice| - 1]);
    }
  }

  /** The table depends on the faces alone: neither `locked` nor `used` changes it. */
  lemma {:induction false} CountsIgnoreFlags(a: seq<Die>, b: seq<Die>)
    requires |a| == |b|
    requires forall i :: 0 <= i < |a| ==> a[i].value == b[i].value
    ensures Counts(a) == Counts(b)
  {
    if a != [] {
      var a', b' := a[..|a| - 1], b[..|b| - 1];
      assert forall i :: 0 <= i < |a'| ==> a'[i].value == b'[i].value by {
        forall i | 0 <= i < |a'| ensures a'[i].value == b'[i].value {
          assert a'[i] == a[i] && b'[i] == b[i];
        }
      }
      CountsIgnoreFlags(a', b');
      assert KindOf(a[|a| - 1]) == KindOf(b[|b| - 1]);
      forall k | k in DiceKinds ensures KindCount(a, k) == KindCount(b, k) {
        assert KindCount(a', k) == Counts(a')[k] == Counts(b')[k] == KindCount(b', k);
      }
    }
  }

  // ---------------------------------------------------------------------------
  // Requirement lists

  /** The distinct names of a requirement list, in order of first occurrence
      (the key order of the `needed` object the source builds). */
  function Distinct(s: seq<Resource>): (r: seq<Resource>)
    ensures forall x :: x in r <==> x in s
    ensures forall i, j :: 0 <= i < j < |r| ==> r[i] != r[j]
  {
    if s == [] then []
    else
      var d := Distinct(s[..|s| - 1]);
      if s[|s| - 1] in d then d else d + [s[|s| - 1]]
  }

  /** How many units of `k` a requirement list asks for. */
  function Need(required: seq<Resource>, k: Resource): nat {
    multiset(required)[k]
  }

  /** The units of `k` in a table; an absent name counts as zero. */
  function Have(available: map<Resource, nat>, k: Resource): nat {
    if k in available then available[k] else 0
  }

  /** How many units are short when `need` are asked for and `have` are at hand. */
  function Shortfall(need: nat, have: nat): (s: nat)
    ensures s == 0 <==> need <= have
    ensures s > 0 ==> have + s == need
  {
    if need > have then need - have else 0
  }

  /** The shortfalls of the kinds `ks`, added up. */
  function TotalShortage(ks: seq<Resource>, required: seq<Resource>, available: map<Resource, nat>): nat {
    if ks == [] then 0
    else
      var k := ks[|ks| - 1];
      TotalShortage(ks[..|ks| - 1], required, available) + Shortfall(Need(required, k), Have(available, k))
  }

  /** The units a requirement is short of, over all its kinds, before any gold is spent. */
  function Shortage(required: seq<Resource>, available: map<Resource, nat>): nat {
    TotalShortage(Distinct(required), required, available)
  }

  /** A requirement of two different kinds, one unit each, is short of each
      kind's own shortfall. */
  lemma ShortageOfPair(a: Resource, b: Resource, available: map<Resource, nat>)
    requires a != b
    ensures Shortage([a, b], available) == Shortfall(1, Have(available, a)) + Shortfall(1, Have(available, b))
  {
    var pair := [a, b];
    assert pair[..1] == [a] && [a][..0] == [];
    assert Distinct([a]) == [a];
    assert Distinct(pair) == Distinct([a]) + [b];
    assert Need(pair, a) == 1 && Need(pair, b) == 1;
    assert TotalShortage([a], pair, available) == Shortfall(1, Have(available, a)) by {
      assert [a][..0] == [];
    }
  }

  /** Extending the visited kinds by one adds that kind's shortfall. */
  lemma ShortageStep(ks: seq<Resource>, j: nat, required: seq<Resource>, available: map<Resource, nat>)
    requires j < |ks|
    ensures TotalShortage(ks[..j + 1], required, available) ==
      TotalShortage(ks[..j], required, available) + Shortfall(Need(required, ks[j]), Have(available, ks[j]))
  {
    assert ks[..j + 1][..j] == ks[..j];
  }

  /** A prefix of the kinds is never short of more than all of them. */
  lemma {:induction false} ShortagePrefix(ks: seq<Resource>, j: nat, required: seq<Resource>, available: map<Resource, nat>)
    requires j <= |ks|
    ensures TotalShortage(ks[..j], required, available) <= TotalShortage(ks, required, available)
  {
    if j < |ks| {
      ShortagePrefix(ks[..|ks| - 1], j, required, available);
      assert ks[..|ks| - 1][..j] == ks[..j];
    } else {
      assert ks[..j] == ks;
    }
  }

  /** One more requirement entry: a new name joins the distinct names, and its
      need rises by one while every other need stays. */
  lemma TallyStep(required: seq<Resource>, i: nat)
    requires i < |required|
    ensures var r := required[i];
      Distinct(required[..i + 1]) ==
        (if r in required[..i] then Distinct(required[..i]) else Distinct(required[..i]) + [r])
    ensures forall k :: k in required[..i + 1] <==> k in required[..i] || k == required[i]
    ensures forall k :: Need(required[..i + 1], k) == Need(required[..i], k) + (if k == required[i] then 1 else 0)
  {
    assert required[..i + 1] == required[..i] + [required[i]];
  }

  /** Counts a requirement list: its distinct names in first-occurrence order and
      the number of units asked for each. */
  method TallyRequired(required: seq<Resource>) returns (kinds: seq<Resource>, needed: map<Resource, nat>)
    ensures kinds == Distinct(required)
    ensures forall k :: k in needed <==> k in required
    ensures forall k :: k in needed ==> needed[k] == Need(required, k)
  {
    kinds, needed := [], map[];
    for i := 0 to |required|
      invariant kinds == Distinct(required[..i])
      invariant forall k :: k in needed <==> k in required[..i]
      invariant forall k :: k in needed ==> needed[k] == Need(required[..i], k)
    {
      kinds, needed := TallyNext(required, i, kinds, needed);
    }
    assert required[..|required|] == required;
  }

  /** One turn of that loop: name `i` joins the kinds if new, and its count rises by one. */
  method TallyNext(required: seq<Resource>, i: nat, kinds: seq<Resource>, needed: map<Resource, nat>)
    returns (kinds': seq<Resource>, needed': map<Resource, nat>)
    requires i < |required| && kinds == Distinct(required[..i])
    requires forall k :: k in needed <==> k in required[..i]
    requires forall k :: k in needed ==> needed[k] == Need(required[..i], k)
    ensures kinds' == Distinct(required[..i + 1])
    ensures forall k :: k in needed' <==> k in required[..i + 1]
    ensures forall k :: k in needed' ==> needed'[k] == Need(required[..i + 1], k)
  {
    var r := required[i];
    TallyStep(required, i);
    kinds' := if r !in needed then kinds + [r] else kinds;
    var before := if r in needed then needed[r] else 0;
    assert before == Need(required[..i], r);
    needed' := needed[r := before + 1];
  }

  // ---------------------------------------------------------------------------
  // Affordability (canBuild)

  /** Decides whether a requirement can be met, a gold unit covering one missing unit.
      The kinds are visited in first-occurrence order; each shortage is taken from
      the gold still unspent, and the answer is false as soon as one cannot be. */
  method CanBuild(required: seq<Resource>, available: map<Resource, nat>) returns (ok: bool)
    ensures ok <==> Shortage(required, available) <= Have(available, Gold)
  {
    var kinds, needed := TallyRequired(required);
    ok := CoverShortages(kinds, needed, required, available);
  }

  /** The loop of canBuild over the tallied kinds: each shortage is taken from
      the gold still unspent, and the answer is false as soon as one cannot be. */
  method CoverShortages(kinds: seq<Resource>, needed: map<Resource, nat>, required: seq<Resource>,
                        available: map<Resource, nat>) returns (ok: bool)
    requires forall k :: k in kinds ==> k in needed && needed[k] == Need(required, k)
    ensures ok <==> TotalShortage(kinds, required, available) <= Have(available, Gold)
  {
    var goldAvailable := Have(available, Gold);
    for j := 0 to |kinds|
      invariant goldAvailable >= 0
      invariant goldAvailable + TotalShortage(kinds[..j], required, available) == Have(available, Gold)
    {
      var k := kinds[j];
      ShortageStep(kinds, j, required, available);
      var have := Have(available, k);
      var shortage := needed[k] as int - have as int;
      if shortage > 0 {
        if shortage <= goldAvailable {
          goldAvailable := goldAvailable - shortage;
        } else {
          ShortagePrefix(kinds, j + 1, required, available);
          return false;
        }
      }
    }
    assert kinds[..|kinds|] == kinds;
    return true;
  }

  /** Affordability at two gold dice per missing unit, the rate at which
      consumeResources spends gold. */
  predicate CanAfford(required: seq<Resource>, available: map<Resource, nat>) {
    2 * Shortage(required, available) <= Have(available, Gold)
  }

  /** A requirement whose every kind is on hand needs no gold at all. */
  lemma {:induction false} CoveredNeedsNoGold(ks: seq<Resource>, required: seq<Resource>, available: map<Resource, nat>)
    requires forall k :: k in ks ==> Need(required, k) <= Have(available, k)
    ensures TotalShortage(ks, required, available) == 0
  {
    if ks != [] {
      CoveredNeedsNoGold(ks[..|ks| - 1], required, available);
    }
  }

  /** An empty requirement is always affordable, and so is one fully covered by
      exact resources, whatever the gold. */
  lemma CoveredIsAffordable(required: seq<Resource>, available: map<Resource, nat>)
    requires forall k :: k in required ==> Need(required, k) <= Have(available, k)
    ensures Shortage(required, available) <= Have(available, Gold)
  {
    CoveredNeedsNoGold(Distinct(required), required, available);
  }

  // ---------------------------------------------------------------------------
  // Missing resources (getMissingResources)

  /** Gold still unspent after visiting `ks`: a kind's shortage is deducted only
      when the remaining gold covers it in full. */
  function GoldLeft(ks: seq<Resource>, required: seq<Resource>, available: map<Resource, nat>): (g: nat)
    ensures g <= Have(available, Gold)
  {
    if ks == [] then Have(available, Gold)
    else
      var k := ks[|ks| - 1];
      var g := GoldLeft(ks[..|ks| - 1], required, available);
      var s := Shortfall(Need(required, k), Have(available, k));
      if 0 < s <= g then g - s else g
  }

  /** `n` copies of `k`. */
  function Repeat(k: Resource, n: nat): (r: seq<Resource>)
    ensures |r| == n && forall i :: 0 <= i < n ==> r[i] == k
  {
    if n == 0 then [] else Repeat(k, n - 1) + [k]
  }

  /** The missing list after visiting `ks`: a kind whose shortage the remaining
      gold cannot cover contributes one entry per unit the gold leaves short. */
  function Missing(ks: seq<Resource>, required: seq<Resource>, available: map<Resource, nat>): seq<Resource> {
    if ks == [] then []
    else
      var k := ks[|ks| - 1];
      var g := GoldLeft(ks[..|ks| - 1], required, available);
      var s := Shortfall(Need(required, k), Have(available, k));
      Missing(ks[..|ks| - 1], required, available) + (if s > g then Repeat(k, s - g) else [])
  }

  /** Visiting one more kind: what GoldLeft and Missing become. */
  lemma MissingStep(ks: seq<Resource>, k: Resource, required: seq<Resource>, available: map<Resource, nat>)
    ensures var g := GoldLeft(ks, required, available);
      var s := Shortfall(Need(required, k), Have(available, k));
      && GoldLeft(ks + [k], required, available) == (if 0 < s <= g then g - s else g)
      && Missing(ks + [k], required, available) ==
         Missing(ks, required, available) + (if s > g then Repeat(k, s - g) else [])
  {
    LastOfSnoc(ks, k);
  }

  /** The front and the last element of `ks + [k]`. */
  lemma LastOfSnoc<T>(ks: seq<T>, k: T)
    ensures var q := ks + [k]; q[..|q| - 1] == ks && q[|q| - 1] == k
  {
    var q := ks + [k];
    assert q[..|q| - 1] == ks;
  }

  /** `n` copies of `k` hold `k` n times and nothing else. */
  lemma {:induction false} RepeatCount(k: Resource, n: nat, x: Resource)
    ensures multiset(Repeat(k, n))[x] == if x == k then n else 0
  {
    if n > 0 {
      RepeatCount(k, n - 1, x);
    }
  }

  /** Appends `n` copies of `k`, one at a time. */
  method PushCopies(missing: seq<Resource>, k: Resource, n: nat) returns (r: seq<Resource>)
    ensures r == missing + Repeat(k, n)
  {
    r := missing;
    for i := 0 to n
      invariant r == missing + Repeat(k, i)
    {
      r := r + [k];
    }
  }

  /** One kind in the loop of getMissingResources, `need` units asked for,
      `have` on hand and `gold` unspent: the shortage is taken from the gold
      when the gold covers it, and otherwise the units the gold leaves short
      are listed. */
  method SettleKind(k: Resource, need: nat, have: nat, gold: nat, missing: seq<Resource>)
    returns (gold': nat, missing': seq<Resource>)
    ensures var s := Shortfall(need, have);
      && gold' == (if 0 < s <= gold then gold - s else gold)
      && missing' == missing + (if s > gold then Repeat(k, s - gold) else [])
  {
    gold', missing' := gold, missing;
    var shortage := need as int - have as int;
    if shortage > 0 {
      if shortage <= gold {
        gold' := gold - shortage;
      } else {
        missing' := PushCopies(missing, k, shortage - gold);
      }
    }
    assert missing + [] == missing;
  }

  /** The loop of getMissingResources over the tallied kinds: each kind's
      shortage is taken from the gold when the gold covers it, and otherwise
      the units the gold leaves short are listed. */
  method ListMissing(kinds: seq<Resource>, needed: map<Resource, nat>, required: seq<Resource>,
                     available: map<Resource, nat>) returns (missing: seq<Resource>)
    requires forall i :: 0 <= i < |kinds| ==> kinds[i] in needed && needed[kinds[i]] == Need(required, kinds[i])
    ensures missing == Missing(kinds, required, available)
  {
    missing := [];
    var goldAvailable := Have(available, Gold);
    for j := 0 to |kinds|
      invariant missing == Missing(kinds[..j], required, available)
      invariant goldAvailable == GoldLeft(kinds[..j], required, available)
    {
      goldAvailable, missing := SettleNext(kinds, j, needed[kinds[j]], required, available, goldAvailable, missing);
    }
    assert kinds[..|kinds|] == kinds;
  }

  /** One turn of that loop: settling kind `j` extends the gold left and the
      missing list from the first `j` kinds to the first `j + 1`. */
  method SettleNext(kinds: seq<Resource>, j: nat, need: nat, required: seq<Resource>,
                    available: map<Resource, nat>, gold: nat, missing: seq<Resource>)
    returns (gold': nat, missing': seq<Resource>)
    requires j < |kinds| && need == Need(required, kinds[j])
    requires gold == GoldLeft(kinds[..j], required, available)
    requires missing == Missing(kinds[..j], required, available)
    ensures gold' == GoldLeft(kinds[..j + 1], required, available)
    ensures missing' == Missing(kinds[..j + 1], required, available)
  {
    var k := kinds[j];
    assert kinds[..j + 1] == kinds[..j] + [k];
    MissingStep(kinds[..j], k, required, available);
    gold', missing' := SettleKind(k, need, Have(available, k), gold, missing);
  }

  /** Lists the units still short after gold has covered what it can. */
  method GetMissingResources(required: seq<Resource>, available: map<Resource, nat>) returns (missing: seq<Resource>)
    ensures missing == Missing(Distinct(required), required, available)
    ensures missing == [] <==> Shortage(required, available) <= Have(available, Gold)
    ensures forall k :: k in missing ==> k in required
    ensures forall k :: multiset(missing)[k] <= Shortfall(Need(required, k), Have(available, k))
  {
    var kinds, needed := TallyRequired(required);
    missing := ListMissing(kinds, needed, required, available);
    MissingMatchesCanBuild(required, available);
  }

  /** The missing list of a whole requirement: empty exactly when it is affordable,
      drawn from the requirement, each kind at most its own shortfall. */
  lemma MissingMatchesCanBuild(required: seq<Resource>, available: map<Resource, nat>)
    ensures var missing := Missing(Distinct(required), required, available);
      && (missing == [] <==> Shortage(required, available) <= Have(available, Gold))
      && (forall k :: k in missing ==> k in required)
      && (forall k :: multiset(missing)[k] <= Shortfall(Need(required, k), Have(available, k)))
  {
    var kinds := Distinct(required);
    MissingEmptyIff(kinds, required, available);
    var missing := Missing(kinds, required, available);
    forall k | k in missing ensures k in required {
      MissingKinds(kinds, required, available, k);
    }
    forall k ensures multiset(missing)[k] <= Shortfall(Need(required, k), Have(available, k)) {
      if k in kinds {
        MissingCount(kinds, required, available, k);
      } else if k in missing {
        MissingKinds(kinds, required, available, k);
      }
    }
  }

  /** Two gold dice and nothing else, for a lumber and a brick: the missing list
      is empty, since each gold die covers one missing unit, yet the requirement
      is not affordable at two gold per missing unit. */
  lemma GoldPairCoversTwo()
    ensures var required, available := [Lumber, Brick], map[Gold := 2];
      && Missing(Distinct(required), required, available) == []
      && !CanAfford(required, available)
  {
    var required, available := [Lumber, Brick], map[Gold := 2];
    ShortageOfPair(Lumber, Brick, available);
    MissingMatchesCanBuild(required, available);
  }

  /** The missing list is empty exactly when the gold covers the whole shortage,
      and then the gold left is what the shortage did not use. */
  lemma {:induction false} MissingEmptyIff(ks: seq<Resource>, required: seq<Resource>, available: map<Resource, nat>)
    ensures Missing(ks, required, available) == [] <==> TotalShortage(ks, required, available) <= Have(available, Gold)
    ensures Missing(ks, required, available) == [] ==>
      GoldLeft(ks, required, available) + TotalShortage(ks, required, available) == Have(available, Gold)
  {
    if ks != [] {
      MissingEmptyIff(ks[..|ks| - 1], required, available);
    }
  }

  /** The entries one kind adds to the missing list are that kind only, and
      no more of them than its shortfall `s`. */
  lemma ShortTail(last: Resource, s: nat, g: nat)
    ensures var tail := if s > g then Repeat(last, s - g) else [];
      && (forall k :: k in tail ==> k == last)
      && (forall k :: multiset(tail)[k] <= if k == last then s else 0)
  {
    var tail := if s > g then Repeat(last, s - g) else [];
    forall k ensures multiset(tail)[k] <= if k == last then s else 0 {
      if s > g {
        RepeatCount(last, s - g, k);
      }
    }
  }

  /** Each entry of the missing list is one of the visited kinds. */
  lemma {:induction false} MissingKinds(ks: seq<Resource>, required: seq<Resource>, available: map<Resource, nat>, k: Resource)
    requires k in Missing(ks, required, available)
    ensures k in ks
  {
    assert ks != [];
    var n := |ks| - 1;
    var p := ks[..n];
    var g := GoldLeft(p, required, available);
    var s := Shortfall(Need(required, ks[n]), Have(available, ks[n]));
    var tail := if s > g then Repeat(ks[n], s - g) else [];
    assert Missing(ks, required, available) == Missing(p, required, available) + tail;
    if k in Missing(p, required, available) {
      MissingKinds(p, required, available, k);
      var i :| 0 <= i < |p| && p[i] == k;
      assert ks[i] == k;
    } else {
      ShortTail(ks[n], s, g);
    }
  }

  /** No kind occurs twice. */
  predicate Unique(ks: seq<Resource>) {
    forall i, j :: 0 <= i < j < |ks| ==> ks[i] != ks[j]
  }

  /** Dropping the last kind of a list without repeats leaves a list without
      repeats, and the last kind is not in it. */
  lemma UniqueFront(ks: seq<Resource>)
    requires Unique(ks) && ks != []
    ensures Unique(ks[..|ks| - 1]) && ks[|ks| - 1] !in ks[..|ks| - 1]
  {
    var p := ks[..|ks| - 1];
    forall i | 0 <= i < |p| ensures p[i] != ks[|ks| - 1] {
      assert p[i] == ks[i];
    }
  }

  /** A kind is in a non-empty list exactly when it is in the front or is the last. */
  lemma InFront(ks: seq<Resource>, k: Resource)
    requires ks != []
    ensures k in ks <==> k in ks[..|ks| - 1] || k == ks[|ks| - 1]
  {
    assert ks == ks[..|ks| - 1] + [ks[|ks| - 1]];
  }

  /** The count of a kind in the missing list after one more visited kind:
      its count before, plus the entries that kind added. */
  lemma MissingCountStep(ks: seq<Resource>, required: seq<Resource>, available: map<Resource, nat>, k: Resource)
    requires ks != []
    ensures var n := |ks| - 1;
      var g := GoldLeft(ks[..n], required, available);
      var s := Shortfall(Need(required, ks[n]), Have(available, ks[n]));
      multiset(Missing(ks, required, available))[k] ==
        multiset(Missing(ks[..n], required, available))[k] + (if k == ks[n] && s > g then s - g else 0)
  {
    var n := |ks| - 1;
    var p := ks[..n];
    var g := GoldLeft(p, required, available);
    var s := Shortfall(Need(required, ks[n]), Have(available, ks[n]));
    CountSplit(Missing(ks, required, available), Missing(p, required, available), ks[n], s, g, k);
  }

  /** A list made of a front and the entries one kind adds counts each kind as
      the front does, plus the added entries. */
  lemma CountSplit(m: seq<Resource>, front: seq<Resource>, last: Resource, s: nat, g: nat, k: Resource)
    requires m == front + (if s > g then Repeat(last, s - g) else [])
    ensures multiset(m)[k] == multiset(front)[k] + (if k == last && s > g then s - g else 0)
  {
    AppendCount(front, if s > g then Repeat(last, s - g) else [], k);
    TailCount(last, s, g, k);
  }

  /** The entries one kind adds to the missing list count `s - g` of that kind
      when its shortfall `s` exceeds the gold `g` left, and nothing otherwise. */
  lemma TailCount(last: Resource, s: nat, g: nat, k: Resource)
    ensures multiset(if s > g then Repeat(last, s - g) else [])[k] == if k == last && s > g then s - g else 0
  {
    if s > g {
      RepeatCount(last, s - g, k);
    }
  }

  /** Counting in a concatenation adds the counts of its two parts. */
  lemma AppendCount(front: seq<Resource>, tail: seq<Resource>, k: Resource)
    ensures multiset(front + tail)[k] == multiset(front)[k] + multiset(tail)[k]
  {
    assert multiset(front + tail) == multiset(front) + multiset(tail);
  }

  /** A visited kind appears in the missing list no more often than its own
      shortfall, the kinds being distinct. */
  lemma {:induction false} MissingCount(ks: seq<Resource>, required: seq<Resource>, available: map<Resource, nat>, k: Resource)
    requires Unique(ks) && k in ks
    ensures multiset(Missing(ks, required, available))[k] <= Shortfall(Need(required, k), Have(available, k))
  {
    var n := |ks| - 1;
    var p := ks[..n];
    MissingCountStep(ks, required, available, k);
    UniqueFront(ks);
    if k == ks[n] {
      if k in Missing(p, required, available) {
        MissingKinds(p, required, available, k);
      }
    } else {
      InFront(ks, k);
      MissingCount(p, required, available, k);
    }
  }

  // ---------------------------------------------------------------------------
  // Display names (formatResourceName)

  /** Upper-case of a Latin letter; every other character is unchanged. */
  function UpperCase(c: char): (u: char)
    ensures 'a' <= c <= 'z' ==> 'A' <= u <= 'Z' && u as int == c as int - 32
    ensures !('a' <= c <= 'z') ==> u == c
  {
    if 'a' <= c <= 'z' then (c as int - 32) as char else c
  }

  /** A name with its first character upper-cased and the rest unchanged. */
  function FormatResourceName(s: string): (r: string)
    ensures |r| == |s|
    ensures s != [] ==> r[0] == UpperCase(s[0]) && r[1..] == s[1..]
  {
    if s == [] then [] else [UpperCase(s[0])] + s[1..]
  }

  /** Formatting twice is formatting once; the empty name stays empty. */
  lemma FormatIdempotent(s: string)
    ensures FormatResourceName(FormatResourceName(s)) == FormatResourceName(s)
    ensures FormatResourceName("") == ""
  {
  }

  /** The display names of the six dice resources. */
  lemma FormattedKindNames()
    ensures FormatResourceName(Name(Lumber)) == "Lumber"
    ensures FormatResourceName(Name(Brick)) == "Brick"
    ensures FormatResourceName(Name(Wool)) == "Wool"
    ensures FormatResourceName(Name(Wheat)) == "Wheat"
    ensures FormatResourceName(Name(Ore)) == "Ore"
    ensures FormatResourceName(Name(Gold)) == "Gold"
  {
  }
}
