/** The technology tree of nxp/jni/com_android_nfc.cpp: from the discovered targets, three aligned arrays of
    technologies, handles and stack types.  The numbers of the stack's target types are not part of the
    repository, so the types are named here. */
module TechnologyTree {

  datatype RemDevType =
    | ISO14443_A | ISO14443_4A | ISO14443_4B | ISO14443_3A | ISO14443_B | ISO15693 | Mifare | Felica | Jewel
    | Other(code: int)

  /** One entry of the device list: its type, its handle, and the SAK byte of a type A target. */
  datatype Target = Target(kind: RemDevType, handle: int, sak: nat)

  const UNKNOWN := -1
  const T_3A := 1
  const T_3B := 2
  const T_4 := 3
  const T_FELICA := 4
  const T_15693 := 5
  const T_CLASSIC := 8
  const T_UL := 9

  const MAX: nat := 32

  /** The technologies a target is listed under, in the order they are added. */
  function Techs(d: Target): seq<int> {
    match d.kind
    case ISO14443_A => [T_4]
    case ISO14443_4A => [T_4]
    case ISO14443_4B => [T_4, T_3B]
    case ISO14443_3A => [T_3A]
    case ISO14443_B => [T_4, T_3B]
    case ISO15693 => [T_15693]
    case Mifare => if d.sak == 0 then [T_UL] else [T_CLASSIC]
    case Felica => [T_FELICA]
    case Jewel => [T_3A]
    case Other(_) => [UNKNOWN]
  }

  /** The highest target that yields tech, among those from t up; -1 if none does. */
  function Highest(devs: seq<Target>, t: nat, tech: int): (h: int)
    requires t <= |devs|
    ensures h == -1 || (t <= h < |devs| && tech in Techs(devs[h]))
    ensures forall u :: t <= u < |devs| && tech in Techs(devs[u]) ==> u <= h
    decreases |devs| - t
  {
    if t == |devs| then -1
    else
      var h := Highest(devs, t + 1, tech);
      if h >= 0 then h else if tech in Techs(devs[t]) then t else -1
  }

  // ---------------------------------------------------------------- one row, and a list of rows

  datatype Row = Row(tech: int, handle: int, kind: RemDevType)

  predicate Has(list: seq<Row>, tech: int) {
    exists i :: 0 <= i < |list| && list[i].tech == tech
  }

  /** What addTechIfNeeded does to the rows listed so far. */
  function Add(list: seq<Row>, max: nat, r: Row): seq<Row> {
    if Has(list, r.tech) || |list| >= max then list else list + [r]
  }

  ghost function Listed(techs: array<int>, handles: array<int>, kinds: array<RemDevType>, n: nat): (l: seq<Row>)
    requires n <= techs.Length && n <= handles.Length && n <= kinds.Length
    reads techs, handles, kinds
  {
    Rows(techs[..n], handles[..n], kinds[..n])
  }

  ghost function Rows(techs: seq<int>, handles: seq<int>, kinds: seq<RemDevType>): (l: seq<Row>)
    requires |techs| == |handles| == |kinds|
    ensures |l| == |techs| && forall i :: 0 <= i < |l| ==> l[i] == Row(techs[i], handles[i], kinds[i])
  {
    seq(|techs|, (i: int) requires 0 <= i < |techs| => Row(techs[i], handles[i], kinds[i]))
  }

  method AddTechIfNeeded(techs: array<int>, handles: array<int>, kinds: array<RemDevType>, listSize: nat,
                         maxListSize: nat, techToAdd: int, handleToAdd: int, kindToAdd: RemDevType)
    returns (newSize: nat)
    requires techs != handles && listSize <= maxListSize
    requires maxListSize <= techs.Length && maxListSize <= handles.Length && maxListSize <= kinds.Length
    modifies techs, handles, kinds
    ensures listSize <= newSize <= maxListSize
    ensures Listed(techs, handles, kinds, newSize)
         == Add(old(Listed(techs, handles, kinds, listSize)), maxListSize, Row(techToAdd, handleToAdd, kindToAdd))
  {
    ghost var list := Listed(techs, handles, kinds, listSize);
    var found := false;
    for i := 0 to listSize
      invariant found <==> exists j :: 0 <= j < i && list[j].tech == techToAdd
      invariant techs[..] == old(techs[..]) && handles[..] == old(handles[..]) && kinds[..] == old(kinds[..])
    {
      if techs[i] == techToAdd {
        found := true;
        assert list[i].tech == techToAdd;
        break;
      }
    }
    assert found <==> Has(list, techToAdd);
    if !found && listSize < maxListSize {
      techs[listSize], handles[listSize] := techToAdd, handleToAdd;
      kinds[listSize] := kindToAdd;
      return listSize + 1;
    }
    return listSize;
  }

  // ---------------------------------------------------------------- what the loop adds up to

  function Yields(d: Target): (rows: seq<Row>)
    ensures |rows| == |Techs(d)| && forall i :: 0 <= i < |rows| ==> rows[i] == Row(Techs(d)[i], d.handle, d.kind)
  {
    if |Techs(d)| == 1 then [Row(Techs(d)[0], d.handle, d.kind)]
    else [Row(Techs(d)[0], d.handle, d.kind), Row(Techs(d)[1], d.handle, d.kind)]
  }

  /** Everything offered to the list by the targets from the top one down to t. */
  function Offered(devs: seq<Target>, t: nat): seq<Row>
    requires t <= |devs|
    decreases |devs| - t
  {
    if t == |devs| then [] else Offered(devs, t + 1) + Yields(devs[t])
  }

  /** The rows kept of those offered. */
  function Kept(offered: seq<Row>, max: nat): seq<Row> {
    if offered == [] then [] else Add(Kept(offered[..|offered| - 1], max), max, offered[|offered| - 1])
  }

  lemma KeptOneMore(offered: seq<Row>, max: nat, r: Row)
    ensures Kept(offered + [r], max) == Add(Kept(offered, max), max, r)
  {
    assert (offered + [r])[..|offered|] == offered;
  }

  lemma KeptYields(offered: seq<Row>, d: Target)
    ensures var one := Add(Kept(offered, MAX), MAX, Yields(d)[0]);
            Kept(offered + Yields(d), MAX) == if |Techs(d)| == 1 then one else Add(one, MAX, Yields(d)[1])
  {
    KeptOneMore(offered, MAX, Yields(d)[0]);
    if |Techs(d)| == 1 {
      assert Yields(d) == [Yields(d)[0]];
    } else {
      KeptOneMore(offered + [Yields(d)[0]], MAX, Yields(d)[1]);
      assert offered + Yields(d) == offered + [Yields(d)[0]] + [Yields(d)[1]];
    }
  }

  /** Where tech is first offered. */
  function FirstAt(offered: seq<Row>, tech: int): (k: nat)
    requires Has(offered, tech)
    ensures k < |offered| && offered[k].tech == tech && forall i :: 0 <= i < k ==> offered[i].tech != tech
  {
    if offered[0].tech == tech then 0 else
      assert Has(offered[1..], tech) by {
        var i :| 0 <= i < |offered| && offered[i].tech == tech;
        assert offered[1..][i - 1].tech == tech;
      }
      1 + FirstAt(offered[1..], tech)
  }

  /** list holds, for every technology offered, exactly the first row that offered it, in order of first offers. */
  ghost predicate FirstOffers(list: seq<Row>, offered: seq<Row>) {
    && (forall i :: 0 <= i < |list| ==>
        Has(offered, list[i].tech) && list[i] == offered[FirstAt(offered, list[i].tech)])
    && (forall i, j :: 0 <= i < j < |list| ==> FirstAt(offered, list[i].tech) < FirstAt(offered, list[j].tech))
    && (forall k :: 0 <= k < |offered| ==> Has(list, offered[k].tech))
  }

  lemma FirstAtStays(offered: seq<Row>, r: Row, tech: int)
    requires Has(offered, tech)
    ensures Has(offered + [r], tech) && FirstAt(offered + [r], tech) == FirstAt(offered, tech)
  {
    var k := FirstAt(offered, tech);
    assert (offered + [r])[k].tech == tech;
  }

  /** An offer of a technology that is listed changes nothing. */
  lemma OldOffer(list: seq<Row>, offered: seq<Row>)
    requires FirstOffers(list, offered)
    ensures forall r: Row | Has(list, r.tech) :: FirstOffers(list, offered + [r])
  {
    forall r: Row | Has(list, r.tech) ensures FirstOffers(list, offered + [r]) {
      var more := offered + [r];
      forall i | 0 <= i < |list|
        ensures Has(more, list[i].tech) && FirstAt(more, list[i].tech) == FirstAt(offered, list[i].tech)
      {
        FirstAtStays(offered, r, list[i].tech);
      }
    }
  }

  /** The first offer of a technology goes to the end. */
  lemma NewOffer(list: seq<Row>, offered: seq<Row>)
    requires FirstOffers(list, offered)
    ensures forall r: Row | !Has(list, r.tech) :: FirstOffers(list + [r], offered + [r])
  {
    forall r: Row | !Has(list, r.tech) ensures FirstOffers(list + [r], offered + [r]) {
      var more, now := offered + [r], list + [r];
      forall i | 0 <= i < |list|
        ensures Has(more, list[i].tech) && FirstAt(more, list[i].tech) == FirstAt(offered, list[i].tech)
      {
        FirstAtStays(offered, r, list[i].tech);
      }
      assert !Has(offered, r.tech);
      assert more[|offered|] == r == now[|list|];
      assert Has(more, r.tech) && FirstAt(more, r.tech) == |offered| by {
        assert forall i :: 0 <= i < |offered| ==> more[i] == offered[i];
      }
      forall k | 0 <= k < |more| ensures Has(now, more[k].tech) {
        if k < |offered| {
          var i :| 0 <= i < |list| && list[i].tech == offered[k].tech;
          assert now[i] == list[i];
        }
      }
    }
  }

  /** As long as there is room, one more offer keeps the list what it should be. */
  lemma AddKeeps(list: seq<Row>, offered: seq<Row>, max: nat, r: Row)
    requires FirstOffers(list, offered) && |list| < max
    ensures FirstOffers(Add(list, max, r), offered + [r])
  {
    if Has(list, r.tech) {
      OldOffer(list, offered);
    } else {
      NewOffer(list, offered);
    }
  }

  // ---------------------------------------------------------------- the list is never full

  predicate Known(tech: int) { tech in {UNKNOWN, T_3A, T_3B, T_4, T_FELICA, T_15693, T_CLASSIC, T_UL} }

  ghost function TechSet(list: seq<Row>): set<int> { set i | 0 <= i < |list| :: list[i].tech }

  /** Pigeonhole: rows with different known technologies are at most as many as there are technologies. */
  lemma FewRows(list: seq<Row>)
    requires forall i :: 0 <= i < |list| ==> Known(list[i].tech)
    requires forall i, j :: 0 <= i < j < |list| ==> list[i].tech != list[j].tech
    ensures |list| <= 8
  {
    var all := {UNKNOWN, T_3A, T_3B, T_4, T_FELICA, T_15693, T_CLASSIC, T_UL};
    TechSetSize(list);
    Subset(TechSet(list), all);
    assert |all| == 8;
  }

  lemma {:induction false} TechSetSize(list: seq<Row>)
    requires forall i, j :: 0 <= i < j < |list| ==> list[i].tech != list[j].tech
    ensures |TechSet(list)| == |list|
  {
    if list != [] {
      var n := |list| - 1;
      TechSetSize(list[..n]);
      assert TechSet(list) == TechSet(list[..n]) + {list[n].tech};
    }
  }

  lemma {:induction false} Subset<T>(a: set<T>, b: set<T>)
    requires a <= b
    ensures |a| <= |b|
  {
    if x :| x in a {
      Subset(a - {x}, b - {x});
      assert |a| == |a - {x}| + 1 && |b| == |b - {x}| + 1;
    } else {
      assert a == {};
    }
  }

  /** Whatever is offered of the known technologies, keeping it never meets a full list. */
  lemma {:induction false} KeptIsFirstOffers(offered: seq<Row>)
    requires forall k :: 0 <= k < |offered| ==> Known(offered[k].tech)
    ensures FirstOffers(Kept(offered, MAX), offered) && |Kept(offered, MAX)| <= 8
  {
    if offered != [] {
      var n := |offered| - 1;
      KeptIsFirstOffers(offered[..n]);
      AddKeeps(Kept(offered[..n], MAX), offered[..n], MAX, offered[n]);
      assert offered[..n] + [offered[n]] == offered;
      FewRows(Kept(offered, MAX));
    }
  }

  /** The limit of 32 makes no difference. */
  lemma {:induction false} NeverFull(offered: seq<Row>, max: nat)
    requires max >= MAX && forall k :: 0 <= k < |offered| ==> Known(offered[k].tech)
    ensures Kept(offered, MAX) == Kept(offered, max)
  {
    if offered != [] {
      NeverFull(offered[..|offered| - 1], max);
      KeptIsFirstOffers(offered[..|offered| - 1]);
    }
  }

  // ---------------------------------------------------------------- in terms of the targets

  lemma HasInTwo(a: seq<Row>, b: seq<Row>, tech: int)
    ensures Has(a + b, tech) <==> Has(a, tech) || Has(b, tech)
    ensures Has(a, tech) ==> FirstAt(a + b, tech) == FirstAt(a, tech)
    ensures !Has(a, tech) && Has(b, tech) ==> FirstAt(a + b, tech) == |a| + FirstAt(b, tech)
  {
    forall i | 0 <= i < |b| ensures (a + b)[|a| + i] == b[i] {}
    if Has(a, tech) {
      assert (a + b)[FirstAt(a, tech)].tech == tech;
    } else if Has(b, tech) {
      assert (a + b)[|a| + FirstAt(b, tech)].tech == tech;
    }
  }

  lemma YieldsHas(d: Target, tech: int)
    ensures Has(Yields(d), tech) <==> tech in Techs(d)
    ensures Has(Yields(d), tech) ==> Yields(d)[FirstAt(Yields(d), tech)] == Row(tech, d.handle, d.kind)
  {
    if tech in Techs(d) {
      var i :| 0 <= i < |Techs(d)| && Techs(d)[i] == tech;
      assert Yields(d)[i].tech == tech;
    }
  }

  /** A technology is offered exactly if some target yields it, and first by the highest such target. */
  lemma {:induction false} OfferedByHighest(devs: seq<Target>, t: nat, tech: int)
    requires t <= |devs|
    ensures Has(Offered(devs, t), tech) <==> Highest(devs, t, tech) >= 0
    ensures Has(Offered(devs, t), tech) ==>
              var h := Highest(devs, t, tech);
              Offered(devs, t)[FirstAt(Offered(devs, t), tech)] == Row(tech, devs[h].handle, devs[h].kind)
    decreases |devs| - t
  {
    if t < |devs| {
      OfferedByHighest(devs, t + 1, tech);
      HasInTwo(Offered(devs, t + 1), Yields(devs[t]), tech);
      YieldsHas(devs[t], tech);
    }
  }

  /** a comes before b: from a higher target, or from the same one as its ISO-DEP technology. */
  predicate Before(devs: seq<Target>, a: int, b: int) {
    || Highest(devs, 0, a) > Highest(devs, 0, b)
    || (Highest(devs, 0, a) == Highest(devs, 0, b) && a == T_4 && b == T_3B)
  }

  lemma YieldsOrder(d: Target, a: int, b: int)
    requires Has(Yields(d), a) && Has(Yields(d), b) && FirstAt(Yields(d), a) < FirstAt(Yields(d), b)
    ensures a == T_4 && b == T_3B
  {
    assert Yields(d)[FirstAt(Yields(d), a)].tech == a && Yields(d)[FirstAt(Yields(d), b)].tech == b;
    assert |Techs(d)| == 2;
  }

  /** Whether tech is offered above target t or first by t itself. */
  predicate IsAboveOrHere(devs: seq<Target>, t: nat, tech: int)
    requires t < |devs| && Has(Offered(devs, t), tech)
  {
    if Has(Offered(devs, t + 1), tech)
    then Highest(devs, t, tech) == Highest(devs, t + 1, tech) > t
         && FirstAt(Offered(devs, t), tech) == FirstAt(Offered(devs, t + 1), tech)
    else Highest(devs, t, tech) == t && Has(Yields(devs[t]), tech)
         && FirstAt(Offered(devs, t), tech) == |Offered(devs, t + 1)| + FirstAt(Yields(devs[t]), tech)
  }

  lemma AboveOrHere(devs: seq<Target>, t: nat)
    requires t < |devs|
    ensures forall tech | Has(Offered(devs, t), tech) :: IsAboveOrHere(devs, t, tech)
  {
    forall tech | Has(Offered(devs, t), tech) ensures IsAboveOrHere(devs, t, tech) {
      HasInTwo(Offered(devs, t + 1), Yields(devs[t]), tech);
      OfferedByHighest(devs, t + 1, tech);
      YieldsHas(devs[t], tech);
    }
  }

  lemma {:induction false} OrderOfTargets(devs: seq<Target>, t: nat, a: int, b: int)
    requires t <= |devs| && Has(Offered(devs, t), a) && Has(Offered(devs, t), b)
    requires FirstAt(Offered(devs, t), a) < FirstAt(Offered(devs, t), b)
    ensures Highest(devs, t, a) > Highest(devs, t, b) ||
        (Highest(devs, t, a) == Highest(devs, t, b) && a == T_4 && b == T_3B)
    decreases |devs| - t
  {
    if t < |devs| {
      AboveOrHere(devs, t);
      assert IsAboveOrHere(devs, t, a) && IsAboveOrHere(devs, t, b);
      if Has(Offered(devs, t + 1), b) {
        OrderOfTargets(devs, t + 1, a, b);
      } else if !Has(Offered(devs, t + 1), a) {
        YieldsOrder(devs[t], a, b);
      }
    }
  }

  lemma {:induction false} OfferedAreKnown(devs: seq<Target>, t: nat)
    requires t <= |devs|
    ensures forall k :: 0 <= k < |Offered(devs, t)| ==> Known(Offered(devs, t)[k].tech)
    decreases |devs| - t
  {
    if t < |devs| {
      OfferedAreKnown(devs, t + 1);
    }
  }

  /** The three arrays a caller gets are the tree of the targets: aligned, without duplicates, complete, ordered,
      and each technology has the handle and type of the highest target that yields it. */
  ghost predicate IsTree(devs: seq<Target>, rows: seq<Row>) {
    && (forall i, j :: 0 <= i < j < |rows| ==> rows[i].tech != rows[j].tech && Before(devs, rows[i].tech, rows[j].tech))
    && (forall tech :: Has(rows, tech) <==> Highest(devs, 0, tech) >= 0)
    && (forall i :: 0 <= i < |rows| ==>
          var h := Highest(devs, 0, rows[i].tech);
          h >= 0 && rows[i].handle == devs[h].handle && rows[i].kind == devs[h].kind)
  }

  lemma KeptIsTree(devs: seq<Target>)
    ensures IsTree(devs, Kept(Offered(devs, 0), MAX)) && |Kept(Offered(devs, 0), MAX)| <= 8
  {
    var offered, rows := Offered(devs, 0), Kept(Offered(devs, 0), MAX);
    OfferedAreKnown(devs, 0);
    KeptIsFirstOffers(offered);
    forall i, j | 0 <= i < j < |rows| ensures Before(devs, rows[i].tech, rows[j].tech) && rows[i].tech != rows[j].tech {
      OrderOfTargets(devs, 0, rows[i].tech, rows[j].tech);
    }
    forall tech ensures Has(rows, tech) <==> Highest(devs, 0, tech) >= 0 {
      OfferedByHighest(devs, 0, tech);
      if Has(offered, tech) {
        assert Has(rows, offered[FirstAt(offered, tech)].tech);
      }
    }
    forall i | 0 <= i < |rows|
      ensures var h := Highest(devs, 0, rows[i].tech);
              h >= 0 && rows[i].handle == devs[h].handle && rows[i].kind == devs[h].kind
    {
      OfferedByHighest(devs, 0, rows[i].tech);
    }
  }

  lemma RowOf(rows: seq<Row>, tech: int) returns (j: nat)
    requires Has(rows, tech)
    ensures j < |rows| && rows[j].tech == tech
  {
    j :| 0 <= j < |rows| && rows[j].tech == tech;
  }

  /** If two trees agree so far, the next row of one is the next of the other. */
  lemma SameNext(devs: seq<Target>, r: seq<Row>, r': seq<Row>, n: nat)
    requires IsTree(devs, r) && IsTree(devs, r') && n < |r| && n <= |r'|
    requires forall k :: 0 <= k < n ==> r[k] == r'[k]
    ensures n < |r'| && r'[n] == r[n]
  {
    var a := r[n].tech;
    assert Has(r, a);
    var j := RowOf(r', a);
    if j > n {
      var b := r'[n].tech;
      assert Has(r', b);
      var i := RowOf(r, b);
    }
  }

  lemma {:induction false} TreesAgree(devs: seq<Target>, r: seq<Row>, r': seq<Row>, n: nat)
    requires IsTree(devs, r) && IsTree(devs, r') && n <= |r|
    ensures n <= |r'| && forall k :: 0 <= k < n ==> r[k] == r'[k]
    decreases n
  {
    if n > 0 {
      TreesAgree(devs, r, r', n - 1);
      SameNext(devs, r, r', n - 1);
    }
  }

  /** There is only one tree of given targets. */
  lemma TreeIsOnly(devs: seq<Target>, r: seq<Row>, r': seq<Row>)
    requires IsTree(devs, r) && IsTree(devs, r')
    ensures r == r'
  {
    TreesAgree(devs, r, r', |r|);
    TreesAgree(devs, r', r, |r'|);
  }

  // ---------------------------------------------------------------- in terms of types and numbers

  /** The numbers a target is listed under, by its type and SAK. */
  predicate ListedAs(d: Target, n: int) {
    || (n == 1 && (d.kind.ISO14443_3A? || d.kind.Jewel?))
    || (n == 2 && (d.kind.ISO14443_4B? || d.kind.ISO14443_B?))
    || (n == 3 && (d.kind.ISO14443_A? || d.kind.ISO14443_4A? || d.kind.ISO14443_4B? || d.kind.ISO14443_B?))
    || (n == 4 && d.kind.Felica?)
    || (n == 5 && d.kind.ISO15693?)
    || (n == 8 && d.kind.Mifare? && d.sak != 0)
    || (n == 9 && d.kind.Mifare? && d.sak == 0)
    || (n == -1 && d.kind.Other?)
  }

  /** Target h is the last one listed under n. */
  predicate LastListed(devs: seq<Target>, h: nat, n: int) {
    h < |devs| && ListedAs(devs[h], n) && forall u :: h < u < |devs| ==> !ListedAs(devs[u], n)
  }

  predicate FromLast(devs: seq<Target>, h: nat, r: Row) {
    LastListed(devs, h, r.tech) && r.handle == devs[h].handle && r.kind == devs[h].kind
  }

  /** A number is listed exactly if some target is to be listed under it, and with the handle and type of the last such
      target. */
  ghost predicate ListsNumbers(devs: seq<Target>, rows: seq<Row>) {
    && (forall n :: Has(rows, n) <==> exists t :: 0 <= t < |devs| && ListedAs(devs[t], n))
    && (forall r :: r in rows ==> exists h: nat :: FromLast(devs, h, r))
  }

  lemma TechsAre(d: Target)
    ensures forall n :: n in Techs(d) <==> ListedAs(d, n)
  {
  }

  lemma TreeListsNumbers(devs: seq<Target>, rows: seq<Row>)
    requires IsTree(devs, rows)
    ensures ListsNumbers(devs, rows)
  {
    forall t | 0 <= t < |devs| ensures forall n :: n in Techs(devs[t]) <==> ListedAs(devs[t], n) { TechsAre(devs[t]); }
    forall n ensures Has(rows, n) <==> exists t :: 0 <= t < |devs| && ListedAs(devs[t], n) {
      var h := Highest(devs, 0, n);
      if h >= 0 { assert ListedAs(devs[h], n); }
    }
    forall r | r in rows ensures exists h: nat :: FromLast(devs, h, r) {
      assert FromLast(devs, Highest(devs, 0, r.tech), r);
    }
  }

  // ---------------------------------------------------------------- the loop

  /** The switch on a target's type: it is added under its technologies, one after the other. */
  method AddTarget(techs: array<int>, handles: array<int>, kinds: array<RemDevType>, size: nat, d: Target,
                   ghost above: seq<Row>)
    returns (newSize: nat)
    requires techs != handles && techs.Length == handles.Length == kinds.Length == MAX && size <= MAX
    requires Listed(techs, handles, kinds, size) == Kept(above, MAX)
    modifies techs, handles, kinds
    ensures newSize <= MAX && Listed(techs, handles, kinds, newSize) == Kept(above + Yields(d), MAX)
  {
    KeptYields(above, d);
    newSize := size;
    match d.kind {
      case ISO14443_A =>
        newSize := AddTechIfNeeded(techs, handles, kinds, newSize, MAX, T_4, d.handle, d.kind);
      case ISO14443_4A =>
        newSize := AddTechIfNeeded(techs, handles, kinds, newSize, MAX, T_4, d.handle, d.kind);
      case ISO14443_4B =>
        newSize := AddTechIfNeeded(techs, handles, kinds, newSize, MAX, T_4, d.handle, d.kind);
        newSize := AddTechIfNeeded(techs, handles, kinds, newSize, MAX, T_3B, d.handle, d.kind);
      case ISO14443_3A =>
        newSize := AddTechIfNeeded(techs, handles, kinds, newSize, MAX, T_3A, d.handle, d.kind);
      case ISO14443_B =>
        newSize := AddTechIfNeeded(techs, handles, kinds, newSize, MAX, T_4, d.handle, d.kind);
        newSize := AddTechIfNeeded(techs, handles, kinds, newSize, MAX, T_3B, d.handle, d.kind);
      case ISO15693 =>
        newSize := AddTechIfNeeded(techs, handles, kinds, newSize, MAX, T_15693, d.handle, d.kind);
      case Mifare =>
        if d.sak == 0 {
          newSize := AddTechIfNeeded(techs, handles, kinds, newSize, MAX, T_UL, d.handle, d.kind);
        } else {
          newSize := AddTechIfNeeded(techs, handles, kinds, newSize, MAX, T_CLASSIC, d.handle, d.kind);
        }
      case Felica =>
        newSize := AddTechIfNeeded(techs, handles, kinds, newSize, MAX, T_FELICA, d.handle, d.kind);
      case Jewel =>
        newSize := AddTechIfNeeded(techs, handles, kinds, newSize, MAX, T_3A, d.handle, d.kind);
      case Other(_) =>
        newSize := AddTechIfNeeded(techs, handles, kinds, newSize, MAX, UNKNOWN, d.handle, d.kind);
    }
  }

  /** nfc_jni_get_technology_tree, with the three regions that are copied into the Java arrays. */
  method GetTechnologyTree(devs: seq<Target>) returns (techs: seq<int>, handles: seq<int>, kinds: seq<RemDevType>)
    requires |devs| < 256
    ensures |techs| == |handles| == |kinds| <= 8
    ensures IsTree(devs, Rows(techs, handles, kinds)) && ListsNumbers(devs, Rows(techs, handles, kinds))
  {
    var technologies, handleList := new int[MAX](_ => 0), new int[MAX](_ => 0);
    var libnfctypes := new RemDevType[MAX](_ => ISO14443_A);
    var index: nat := 0;
    var target: int := |devs| - 1;
    while target >= 0
      invariant -1 <= target < |devs| && index <= MAX
      invariant Listed(technologies, handleList, libnfctypes, index) == Kept(Offered(devs, target + 1), MAX)
    {
      index := AddTarget(technologies, handleList, libnfctypes, index, devs[target], Offered(devs, target + 1));
      assert Offered(devs, target) == Offered(devs, target + 1) + Yields(devs[target]);
      target := target - 1;
    }
    KeptIsTree(devs);
    techs, handles, kinds := technologies[..index], handleList[..index], libnfctypes[..index];
    TreeListsNumbers(devs, Rows(techs, handles, kinds));
  }
}
