/**
  From a drawn encoding to ranges of word bits. The drawing runs left to right;
  `Drawn` says which place of the drawing a word bit has: unit by unit upward,
  and downward from the top bit inside each unit. A range is right when it
  holds exactly the bits drawn at its field's places.
 */
module EncodingLayout {
  import opened Options
  import opened Arithmetic

  datatype Field = Field(width: nat, value: string)

  /** Word bits `start` to `end`, both included. */
  datatype Arm = Arm(start: nat, end: nat, value: string)

  function Total(fields: seq<Field>): nat
  {
    if fields == [] then 0 else Total(fields[..|fields| - 1]) + fields[|fields| - 1].width
  }

  /** The source's 16-bit sums: every width is positive and the total is representable. */
  ghost predicate Representable(fields: seq<Field>)
  {
    Total(fields) < 0x1_0000 && forall f | f in fields :: f.width >= 1
  }

  function EffectiveUnit(total: nat, unit: Option<nat>): (r: Option<nat>)
    ensures r.Some? <==> total > 0 && (unit.None? || total < unit.value || (unit.value > 0 && total % unit.value == 0))
    ensures r.Some? ==> r.value > 0 && total % r.value == 0
    ensures r.Some? && (unit.None? || total < unit.value) ==> r == Some(total)
    ensures r.Some? && unit.Some? && unit.value <= total ==> r == unit
  {
    if total == 0 then None
    else if unit.None? || total < unit.value then Some(total)
    else if unit.value > 0 && total % unit.value == 0 then Some(unit.value)
    else None
  }

  /** A field at `pos` stays inside its unit, or starts on a boundary and fills whole units. */
  ghost predicate Fits(pos: nat, width: nat, unit: nat)
    requires unit > 0
  {
    width <= unit - pos % unit || (pos % unit == 0 && width % unit == 0)
  }

  ghost predicate AllFit(fields: seq<Field>, unit: nat)
    requires unit > 0
  {
    forall i | 0 <= i < |fields| :: Fits(Total(fields[..i]), fields[i].width, unit)
  }

  function StartOf(pos: nat, width: nat, unit: nat): int
    requires unit > 0
  {
    var index, offset := pos / unit, pos % unit;
    if width > unit - offset then index * unit else index * unit + unit - offset - width
  }

  ghost predicate ArmOf(arm: Arm, fields: seq<Field>, i: nat, unit: nat)
    requires i < |fields| && unit > 0
  {
    && arm.start == StartOf(Total(fields[..i]), fields[i].width, unit)
    && arm.end == arm.start + fields[i].width - 1 && arm.value == fields[i].value
  }

  // ----- The layout mirrors each unit: word bit `b` is drawn at position `Drawn(b)`.

  function Drawn(bit: nat, unit: nat): (r: int)
    requires unit > 0
  {
    bit / unit * unit + (unit - 1 - bit % unit)
  }

  lemma DivOf(unit: nat, q: nat, r: nat)
    requires r < unit
    ensures (q * unit + r) / unit == q && (q * unit + r) % unit == r
  {
    var x := q * unit + r;
    assert x == x / unit * unit + x % unit;
    if x / unit < q {
      MulStep(x / unit, q, unit);
    } else if q < x / unit {
      MulStep(q, x / unit, unit);
    }
  }

  /** Drawing twice gives the bit back, and keeps it in its unit. */
  lemma DrawnInvolutive(bit: nat, unit: nat)
    requires unit > 0
    ensures Drawn(bit, unit) >= 0 && Drawn(Drawn(bit, unit), unit) == bit
    ensures Drawn(bit, unit) / unit == bit / unit && Drawn(bit, unit) % unit == unit - 1 - bit % unit
  {
    DivOf(unit, bit / unit, unit - 1 - bit % unit);
  }

  lemma SameUnit(pos: nat, x: nat, unit: nat)
    requires unit > 0 && pos / unit * unit <= x < pos / unit * unit + unit
    ensures x / unit == pos / unit && x % unit == x - pos / unit * unit
  {
    DivOf(unit, pos / unit, x - pos / unit * unit);
  }

  /** Where a field that fits lands: exactly the word bits drawn inside it. */
  lemma {:induction false} FieldCovers(pos: nat, width: nat, unit: nat, bit: nat)
    requires unit > 0 && width >= 1 && Fits(pos, width, unit)
    ensures StartOf(pos, width, unit) >= 0
    ensures StartOf(pos, width, unit) <= bit < StartOf(pos, width, unit) + width <==> pos <= Drawn(bit, unit) < pos + width
  {
    DrawnInvolutive(bit, unit);
    if width > unit - pos % unit {
      WholeUnits(pos, width, unit, bit, Drawn(bit, unit));
    } else {
      WithinUnit(pos, width, unit, bit, Drawn(bit, unit), pos / unit, pos % unit);
    }
  }

  /** A field inside one unit holds a bit exactly when it is drawn inside the field. */
  lemma {:induction false} WithinUnit(pos: nat, width: nat, unit: nat, bit: nat, d: nat, q: nat, offset: nat)
    requires unit > 0 && q == pos / unit && offset == pos % unit && 1 <= width <= unit - offset
    requires d / unit == bit / unit && d % unit == unit - 1 - bit % unit
    ensures var start := q * unit + unit - offset - width;
            start >= 0 && (start <= bit < start + width <==> pos <= d < pos + width)
  {
    var base := q * unit;
    assert pos == base + offset && base >= 0;
    assert d == d / unit * unit + d % unit && bit == bit / unit * unit + bit % unit;
    if base <= bit < base + unit {
      SameUnit(pos, bit, unit);
    } else if pos <= d < pos + width {
      SameUnit(pos, d, unit);
    }
  }

  /** A run of whole units holds a bit exactly when it holds any other bit of the same unit. */
  lemma WholeUnits(pos: nat, width: nat, unit: nat, a: nat, b: nat)
    requires unit > 0 && pos % unit == 0 && width % unit == 0 && a / unit == b / unit
    ensures pos / unit * unit == pos
    ensures pos <= a < pos + width <==> pos <= b < pos + width
  {
    var p, w, q := pos / unit, width / unit, a / unit;
    assert pos == p * unit && width == w * unit;
    assert pos + width == (p + w) * unit;
    InUnits(p, p + w, q, unit, a);
    InUnits(p, p + w, q, unit, b);
  }

  lemma InUnits(p: nat, e: nat, q: nat, unit: nat, a: nat)
    requires unit > 0 && q == a / unit
    ensures p * unit <= a < e * unit <==> p <= q < e
  {
    assert a == q * unit + a % unit;
    if q < p {
      MulStep(q, p, unit);
    } else if p < q {
      MulStep(p, q, unit);
    }
    if q < e {
      MulStep(q, e, unit);
    } else if e < q {
      MulStep(e, q, unit);
    }
  }

  /** The word bit is drawn inside the field. */
  ghost predicate DrawnIn(pos: nat, width: nat, unit: nat, bit: nat)
    requires unit > 0
  {
    pos <= Drawn(bit, unit) < pos + width
  }

  /** The word bits drawn inside the field have no gap. */
  ghost predicate OneRun(pos: nat, width: nat, unit: nat)
    requires unit > 0
  {
    forall x: nat, y: nat, z: nat | x < y < z && DrawnIn(pos, width, unit, x) && DrawnIn(pos, width, unit, z) :: DrawnIn(pos, width, unit, y)
  }

  lemma DrawnAt(unit: nat, q: nat, r: nat)
    requires r < unit
    ensures q * unit + unit - 1 - r >= 0 && Drawn(q * unit + unit - 1 - r, unit) == q * unit + r
  {
    DivOf(unit, q, unit - 1 - r);
    assert q * unit + (unit - 1 - r) == q * unit + unit - 1 - r;
  }

  /** A field that starts inside a unit and crosses its end leaves out the bit drawn first in that unit. */
  lemma {:induction false} CrossingHasGap(pos: nat, width: nat, unit: nat, q: nat, offset: nat)
    requires offset < unit && pos == q * unit + offset && offset > 0 && width > unit - offset
    ensures !OneRun(pos, width, unit)
  {
    var base := q * unit;
    DrawnAt(unit, q, offset);
    DrawnAt(unit, q, 0);
    DrawnAt(unit, q + 1, 0);
    assert (q + 1) * unit == base + unit;
    var x, y, z := base + unit - 1 - offset, base + unit - 1, base + unit + unit - 1;
    assert DrawnIn(pos, width, unit, x) && !DrawnIn(pos, width, unit, y) && DrawnIn(pos, width, unit, z);
  }

  /** A field of whole units and a part of one leaves out the bits drawn last in that one. */
  lemma {:induction false} PartHasGap(pos: nat, width: nat, unit: nat, p: nat, e: nat, rest: nat)
    requires 0 < rest < unit && pos == p * unit && pos + width == e * unit + rest && width > unit
    ensures !OneRun(pos, width, unit)
  {
    LaterUnit(p, e, unit, pos, width, rest);
    DrawnAt(unit, p, 0);
    DrawnAt(unit, e, unit - 1);
    DrawnAt(unit, e, 0);
    var x, y, z := p * unit + unit - 1, e * unit, e * unit + unit - 1;
    assert DrawnIn(pos, width, unit, x) && !DrawnIn(pos, width, unit, y) && DrawnIn(pos, width, unit, z);
  }

  lemma LaterUnit(p: nat, e: nat, unit: nat, pos: nat, width: nat, rest: nat)
    requires pos == p * unit && pos + width == e * unit + rest && width > unit && rest < unit
    ensures p * unit + unit - 1 < e * unit
  {
    if e <= p {
      MulOrder(e, p, unit);
    } else {
      MulStep(p, e, unit);
    }
  }

  /** A field fits exactly when the word bits drawn inside it are one run. */
  lemma {:induction false} FitsExactly(pos: nat, width: nat, unit: nat)
    requires unit > 0 && width >= 1
    ensures Fits(pos, width, unit) <==> OneRun(pos, width, unit)
  {
    var q, offset := pos / unit, pos % unit;
    assert pos == q * unit + offset;
    if Fits(pos, width, unit) {
      forall bit: nat
        ensures StartOf(pos, width, unit) <= bit < StartOf(pos, width, unit) + width <==> DrawnIn(pos, width, unit, bit)
      {
        FieldCovers(pos, width, unit, bit);
      }
    } else if offset > 0 {
      CrossingHasGap(pos, width, unit, q, offset);
    } else {
      var e, rest := (pos + width) / unit, (pos + width) % unit;
      assert pos + width == e * unit + rest;
      RestIs(q, width, unit);
      PartHasGap(pos, width, unit, q, e, rest);
    }
  }

  lemma RestIs(q: nat, width: nat, unit: nat)
    requires unit > 0
    ensures (q * unit + width) % unit == width % unit
  {
    var w, rest := width / unit, width % unit;
    assert width == w * unit + rest;
    assert q * unit + width == (q + w) * unit + rest;
    DivOf(unit, q + w, rest);
  }

  /** Inside a unit a field is drawn high bit first. */
  lemma {:induction false} DrawnHighBitFirst(pos: nat, width: nat, unit: nat, bit: nat)
    requires unit > 0 && 1 <= width <= unit - pos % unit && bit < width
    ensures StartOf(pos, width, unit) >= 0 && Drawn(StartOf(pos, width, unit) + bit, unit) == pos + width - 1 - bit
  {
    var start := StartOf(pos, width, unit);
    assert pos == pos / unit * unit + pos % unit;
    SameUnit(pos, start + bit, unit);
  }

  // ----- Tiling.

  ghost predicate Covers(arm: Arm, bit: nat) { arm.start <= bit <= arm.end }

  ghost predicate Covered(arms: seq<Arm>, bit: nat) { exists i :: 0 <= i < |arms| && Covers(arms[i], bit) }

  /** Every bit below `total` lies in exactly one arm, and no arm reaches past it. */
  ghost predicate Tiles(arms: seq<Arm>, total: nat)
  {
    && (forall bit: nat | bit < total :: Covered(arms, bit))
    && (forall i, j, bit: nat | 0 <= i < j < |arms| && Covers(arms[i], bit) :: !Covers(arms[j], bit))
    && (forall i, bit: nat | 0 <= i < |arms| && Covers(arms[i], bit) :: bit < total)
  }

  lemma {:induction false} TotalPrefix(fields: seq<Field>, i: nat, j: nat)
    requires i < j <= |fields|
    ensures Total(fields[..i]) + fields[i].width <= Total(fields[..j])
    ensures Total(fields[..i + 1]) == Total(fields[..i]) + fields[i].width
    decreases j
  {
    assert fields[..i + 1][..i] == fields[..i] && fields[..j][..j - 1] == fields[..j - 1];
    if i + 1 < j {
      TotalPrefix(fields, i, j - 1);
    }
  }

  /** The field drawn over position `at`. */
  lemma {:induction false} FieldAt(fields: seq<Field>, n: nat, at: nat) returns (i: nat)
    requires n <= |fields| && at < Total(fields[..n])
    ensures i < n && Total(fields[..i]) <= at < Total(fields[..i]) + fields[i].width
    decreases n
  {
    assert fields[..n][..n - 1] == fields[..n - 1];
    if at >= Total(fields[..n - 1]) {
      i := n - 1;
    } else {
      i := FieldAt(fields, n - 1, at);
    }
  }

  lemma {:induction false} DrawnBelow(bit: nat, unit: nat, total: nat)
    requires unit > 0 && total % unit == 0
    ensures 0 <= Drawn(bit, unit) && (bit < total <==> Drawn(bit, unit) < total)
  {
    DrawnInvolutive(bit, unit);
    var d := Drawn(bit, unit);
    WholeUnits(0, total, unit, bit, d);
  }

  lemma {:induction false} ArmCovers(arm: Arm, fields: seq<Field>, i: nat, unit: nat, bit: nat)
    requires unit > 0 && i < |fields| && ArmOf(arm, fields, i, unit) && AllFit(fields, unit) && Representable(fields)
    ensures Covers(arm, bit) <==> Total(fields[..i]) <= Drawn(bit, unit) < Total(fields[..i]) + fields[i].width
  {
    assert fields[i] in fields;
    FieldCovers(Total(fields[..i]), fields[i].width, unit, bit);
  }

  lemma {:induction false} LayoutTiles(fields: seq<Field>, unit: nat, arms: seq<Arm>)
    requires unit > 0 && Representable(fields) && AllFit(fields, unit) && Total(fields) % unit == 0
    requires |arms| == |fields| && forall i | 0 <= i < |fields| :: ArmOf(arms[i], fields, i, unit)
    ensures Tiles(arms, Total(fields))
  {
    var total := Total(fields);
    assert fields[..|fields|] == fields;
    forall bit: nat | bit < total
      ensures Covered(arms, bit)
    {
      DrawnBelow(bit, unit, total);
      var i := FieldAt(fields, |fields|, Drawn(bit, unit));
      ArmCovers(arms[i], fields, i, unit, bit);
    }
    forall i, j, bit: nat | 0 <= i < j < |arms| && Covers(arms[i], bit)
      ensures !Covers(arms[j], bit)
    {
      ArmCovers(arms[i], fields, i, unit, bit);
      ArmCovers(arms[j], fields, j, unit, bit);
      TotalPrefix(fields, i, j);
    }
    forall i, bit: nat | 0 <= i < |arms| && Covers(arms[i], bit)
      ensures bit < total
    {
      ArmCovers(arms[i], fields, i, unit, bit);
      TotalPrefix(fields, i, |fields|);
      DrawnBelow(bit, unit, total);
    }
  }

  // ----- The layout and its sort.

  ghost predicate Ascending(arms: seq<Arm>) { forall i, j | 0 <= i < j < |arms| :: arms[i].start < arms[j].start }

  /** The arms sorted by `order`, a permutation of the fields. */
  ghost predicate Permutes(sorted: seq<Arm>, arms: seq<Arm>, order: seq<nat>)
  {
    && |sorted| == |arms| == |order|
    && (forall i | 0 <= i < |order| :: order[i] < |arms| && sorted[i] == arms[order[i]])
    && (forall i, j | 0 <= i < j < |order| :: order[i] != order[j])
    && (forall k: nat | k < |arms| :: k in order)
  }

  method SortArms(arms: seq<Arm>) returns (sorted: seq<Arm>, ghost order: seq<nat>)
    requires forall i, j | 0 <= i < j < |arms| :: arms[i].start != arms[j].start
    ensures Ascending(sorted) && Permutes(sorted, arms, order)
  {
    sorted, order := [], [];
    for n := 0 to |arms|
      invariant Ascending(sorted) && Permutes(sorted, arms[..n], order)
    {
      var at := 0;
      while at < |sorted| && sorted[at].start < arms[n].start
        invariant 0 <= at <= |sorted| && forall i | 0 <= i < at :: sorted[i].start < arms[n].start
      {
        at := at + 1;
      }
      InsertPermutes(sorted, arms, order, n, at);
      sorted := sorted[..at] + [arms[n]] + sorted[at..];
      order := order[..at] + [n] + order[at..];
    }
    assert arms[..|arms|] == arms;
  }

  lemma {:induction false} InsertPermutes(sorted: seq<Arm>, arms: seq<Arm>, order: seq<nat>, n: nat, at: nat)
    requires n < |arms| && Ascending(sorted) && Permutes(sorted, arms[..n], order) && at <= |sorted|
    requires forall i, j | 0 <= i < j < |arms| :: arms[i].start != arms[j].start
    requires forall i | 0 <= i < at :: sorted[i].start < arms[n].start
    requires at < |sorted| ==> sorted[at].start >= arms[n].start
    ensures Ascending(sorted[..at] + [arms[n]] + sorted[at..])
    ensures Permutes(sorted[..at] + [arms[n]] + sorted[at..], arms[..n + 1], order[..at] + [n] + order[at..])
  {
    InsertAscends(sorted, arms, order, n, at);
    InsertOrders(sorted, arms, order, n, at);
  }

  lemma {:induction false} InsertAscends(sorted: seq<Arm>, arms: seq<Arm>, order: seq<nat>, n: nat, at: nat)
    requires n < |arms| && Ascending(sorted) && Permutes(sorted, arms[..n], order) && at <= |sorted|
    requires forall i, j | 0 <= i < j < |arms| :: arms[i].start != arms[j].start
    requires forall i | 0 <= i < at :: sorted[i].start < arms[n].start
    requires at < |sorted| ==> sorted[at].start >= arms[n].start
    ensures Ascending(sorted[..at] + [arms[n]] + sorted[at..])
  {
  }

  lemma {:induction false} InsertOrders(sorted: seq<Arm>, arms: seq<Arm>, order: seq<nat>, n: nat, at: nat)
    requires n < |arms| && Permutes(sorted, arms[..n], order) && at <= |sorted|
    ensures Permutes(sorted[..at] + [arms[n]] + sorted[at..], arms[..n + 1], order[..at] + [n] + order[at..])
  {
    var o := order[..at] + [n] + order[at..];
    forall k: nat | k < n + 1
      ensures k in o
    {
      InsertHas(order, n, at, k);
    }
  }

  lemma {:induction false} InsertHas(order: seq<nat>, n: nat, at: nat, k: nat)
    requires at <= |order| && (k == n || k in order)
    ensures k in order[..at] + [n] + order[at..]
  {
    var o := order[..at] + [n] + order[at..];
    if k == n {
      assert o[at] == n;
    } else {
      var i :| 0 <= i < |order| && order[i] == k;
      assert o[if i < at then i else i + 1] == k;
    }
  }

  lemma {:induction false} PermutedTiles(sorted: seq<Arm>, arms: seq<Arm>, order: seq<nat>, total: nat)
    requires Permutes(sorted, arms, order) && Tiles(arms, total)
    ensures Tiles(sorted, total)
  {
    forall bit: nat | bit < total
      ensures Covered(sorted, bit)
    {
      assert Covered(arms, bit);
      var k :| 0 <= k < |arms| && Covers(arms[k], bit);
      assert k in order;
      var i :| 0 <= i < |order| && order[i] == k;
      assert Covers(sorted[i], bit);
    }
  }

  /** Ranges of distinct fields start at distinct bits. */
  lemma {:induction false} StartsDiffer(arms: seq<Arm>, total: nat)
    requires Tiles(arms, total) && forall i | 0 <= i < |arms| :: arms[i].start <= arms[i].end
    ensures forall i, j | 0 <= i < j < |arms| :: arms[i].start != arms[j].start
  {
    forall i, j | 0 <= i < j < |arms|
      ensures arms[i].start != arms[j].start
    {
      assert Covers(arms[i], arms[i].start) && Covers(arms[j], arms[j].start);
    }
  }

  /** The first word bit of a field, if it fits where it stands. */
  function FieldStart(pos: nat, width: nat, u: nat): (r: Option<nat>)
    requires u > 0 && width >= 1
    ensures r.Some? <==> Fits(pos, width, u)
    ensures r.Some? ==> r.value == StartOf(pos, width, u)
  {
    var index, offset := pos / u, pos % u;
    if width > u - offset then
      if offset != 0 || width % u != 0 then None else Some(index * u)
    else
      FieldCovers(pos, width, u, 0);
      Some(index * u + u - offset - width)
  }

  /** The arms of the first `n` fields, in field order. */
  ghost function Layout(fields: seq<Field>, u: nat, n: nat): (r: Option<seq<Arm>>)
    requires u > 0 && n <= |fields| && forall f | f in fields :: f.width >= 1
    ensures r.Some? ==> |r.value| == n
  {
    if n == 0 then Some([])
    else
      var before, field := Layout(fields, u, n - 1), fields[n - 1];
      assert field in fields;
      var start := FieldStart(Total(fields[..n - 1]), field.width, u);
      if before.None? || start.None? then None
      else Some(before.value + [Arm(start.value, start.value + field.width - 1, field.value)])
  }

  lemma {:induction false} LayoutStops(fields: seq<Field>, u: nat, i: nat, n: nat)
    requires u > 0 && i < n <= |fields| && forall f | f in fields :: f.width >= 1
    requires Layout(fields, u, n).Some?
    ensures Fits(Total(fields[..i]), fields[i].width, u) && ArmOf(Layout(fields, u, n).value[i], fields, i, u)
    decreases n
  {
    assert fields[n - 1] in fields;
    if i < n - 1 {
      LayoutStops(fields, u, i, n - 1);
      assert Layout(fields, u, n).value[i] == Layout(fields, u, n - 1).value[i];
    }
  }

  /** One arm a field, in field order. */
  method LayOut(fields: seq<Field>, u: nat) returns (r: Option<seq<Arm>>)
    requires Representable(fields) && u > 0
    ensures r.Some? <==> AllFit(fields, u)
    ensures r.Some? ==> |r.value| == |fields| && forall i | 0 <= i < |fields| :: ArmOf(r.value[i], fields, i, u)
  {
    var arms: seq<Arm> := [];
    var pos := 0;
    for i := 0 to |fields|
      invariant pos == Total(fields[..i]) && Layout(fields, u, i) == Some(arms)
    {
      var field := fields[i];
      assert field in fields && fields[..i + 1][..i] == fields[..i];
      var start := FieldStart(pos, field.width, u);
      if start.None? {
        assert !Fits(Total(fields[..i]), fields[i].width, u);
        assert !AllFit(fields, u);
        return None;
      }
      arms := arms + [Arm(start.value, start.value + field.width - 1, field.value)];
      pos := pos + field.width;
    }
    forall i | 0 <= i < |fields|
      ensures Fits(Total(fields[..i]), fields[i].width, u) && ArmOf(arms[i], fields, i, u)
    {
      LayoutStops(fields, u, i, |fields|);
    }
    return Some(arms);
  }

  /** Sorted ranges, or `None` if some field does not fit. */
  method EncodingArms(fields: seq<Field>, unit: Option<nat>) returns (r: Option<seq<Arm>>, ghost order: seq<nat>)
    requires Representable(fields)
    ensures r.Some? <==> var u := EffectiveUnit(Total(fields), unit); u.Some? && AllFit(fields, u.value)
    ensures r.Some? ==> Ascending(r.value) && Tiles(r.value, Total(fields))
    ensures r.Some? ==> |r.value| == |order| == |fields| && forall i | 0 <= i < |fields| ::
              order[i] < |fields| && ArmOf(r.value[i], fields, order[i], EffectiveUnit(Total(fields), unit).value)
  {
    order := [];
    var effective := EffectiveUnit(Total(fields), unit);
    if effective.None? {
      return None, order;
    }
    var laid := LayOut(fields, effective.value);
    if laid.None? {
      return None, order;
    }
    LayoutTiles(fields, effective.value, laid.value);
    assert forall i | 0 <= i < |fields| :: fields[i] in fields;
    StartsDiffer(laid.value, Total(fields));
    var sorted;
    sorted, order := SortArms(laid.value);
    PermutedTiles(sorted, laid.value, order, Total(fields));
    return Some(sorted), order;
  }

  datatype Problem = Fine | NotWholeUnits | CrossesUnit

  /** The diagnostic names the reason the layout fails. */
  method CheckEncodingUnits(fields: seq<Field>, unit: Option<nat>) returns (r: Problem)
    requires Representable(fields)
    ensures r.Fine? <==> var u := EffectiveUnit(Total(fields), unit); u.Some? && AllFit(fields, u.value)
    ensures r.NotWholeUnits? <==> EffectiveUnit(Total(fields), unit).None?
  {
    var arms, _ := EncodingArms(fields, unit);
    if arms.Some? {
      return Fine;
    }
    var total := Total(fields);
    var declared := if unit.Some? then unit.value else total;
    return if EffectiveUnit(total, Some(declared)).None? then NotWholeUnits else CrossesUnit;
  }

  /** With no declared unit, any non-empty encoding lays out. */
  lemma {:induction false} OneUnitAlwaysFits(fields: seq<Field>)
    requires Representable(fields) && fields != []
    ensures EffectiveUnit(Total(fields), None) == Some(Total(fields)) && AllFit(fields, Total(fields))
  {
    var total := Total(fields);
    assert fields[..|fields|] == fields && fields[|fields| - 1] in fields;
    forall i | 0 <= i < |fields|
      ensures Fits(Total(fields[..i]), fields[i].width, total)
    {
      TotalPrefix(fields, i, |fields|);
      assert fields[i] in fields;
      DivOf(total, 0, Total(fields[..i]));
    }
  }
}
