/** The rational numbers as an example of printable numbers: they have a text, and candidates keep to them. */
module Rationals {
  import opened Collections
  import opened Text
  import opened Parameters
  import Annealing

  ghost predicate Ratio(x: real, p: int, q: nat) {
    q > 0 && x * q as real == p as real
  }

  ghost predicate Rational(x: real) {
    exists p, q :: Ratio(x, p, q)
  }

  ghost function All(): iset<real> {
    iset x | Rational(x)
  }

  // ---------------------------------------------------------------------------
  // Text

  ghost function Show(x: real): string {
    if Rational(x) then var p: int, q: nat :| Ratio(x, p, q); IntegerText(p) + "/" + Decimal(q) else ""
  }

  function Read(text: string): Option<real> {
    var k := Find(text, '/');
    if k == |text| then None else
      match (ParseInteger(text[..k]), ParseDecimal(text[k + 1..]))
      case (Some(p), Some(q)) => if q > 0 then Some(p as real / q as real) else None
      case _ => None
  }

  lemma QuotientIs(x: real, p: int, q: nat)
    requires q > 0
    ensures Ratio(x, p, q) <==> x == p as real / q as real
  {
  }

  lemma FractionText(p: int, q: nat)
    ensures IsClean(IntegerText(p) + "/" + Decimal(q))
    ensures q > 0 ==> Read(IntegerText(p) + "/" + Decimal(q)) == Some(p as real / q as real)
  {
    var a, b := IntegerText(p), Decimal(q);
    var text := a + "/" + b;
    IntegerClean(p);
    assert forall i :: 0 <= i < |a| ==> a[i] == '-' || IsDigit(a[i]);
    assert text == a + ("/" + b);
    FindFirst(a, "/" + b, '/');
    assert text[..|a|] == a && text[|a| + 1..] == b;
    IntegerRoundTrip(p);
    DecimalRoundTrip(q);
    forall i | 0 <= i < |text| ensures !IsSpace(text[i]) && text[i] != '=' {
      assert i > |a| ==> IsDigit(b[i - |a| - 1]);
    }
  }

  /** Writing and reading rationals meets what the parameter file asks of a text for floats. */
  lemma TextOk()
    ensures FloatText(Show, Read, All())
  {
    forall x | x in All() ensures IsClean(Show(x)) && Read(Show(x)) == Some(x) {
      var p: int, q: nat :| Ratio(x, p, q) && Show(x) == IntegerText(p) + "/" + Decimal(q);
      FractionText(p, q);
      QuotientIs(x, p, q);
    }
    forall text | Read(text).Some? ensures Read(text).value in All() {
      ReadIsRational(text);
    }
  }

  lemma ReadIsRational(text: string)
    requires Read(text).Some?
    ensures Rational(Read(text).value)
  {
    var k := Find(text, '/');
    var p, q := ParseInteger(text[..k]).value, ParseDecimal(text[k + 1..]).value;
    QuotientIs(Read(text).value, p, q);
  }

  // ---------------------------------------------------------------------------
  // Arithmetic

  lemma Casts(a: int, b: int)
    ensures (a * b) as real == a as real * b as real
  {
  }

  lemma SumOf(x: real, y: real, a: real, b: real, c: real, d: real)
    requires x * b == a && y * d == c
    ensures (x + y) * (b * d) == a * d + c * b && (x - y) * (b * d) == a * d - c * b
  {
    calc {
      (x + y) * (b * d);
      (x * b) * d + (y * d) * b;
      a * d + c * b;
    }
    calc {
      (x - y) * (b * d);
      (x * b) * d - (y * d) * b;
      a * d - c * b;
    }
  }

  lemma ProductOf(x: real, y: real, a: real, b: real, c: real, d: real)
    requires x * b == a && y * d == c
    ensures (x * y) * (b * d) == a * c
  {
    calc {
      (x * y) * (b * d);
      (x * b) * (y * d);
      a * c;
    }
  }

  lemma Positive(q: nat, s: nat)
    requires q > 0 && s > 0
    ensures q * s > 0
  {
  }

  lemma SumRatio(x: real, y: real, p: int, q: nat, r: int, s: nat)
    requires Ratio(x, p, q) && Ratio(y, r, s)
    ensures q * s > 0 && Ratio(x + y, p * s + r * q, q * s) && Ratio(x - y, p * s - r * q, q * s)
  {
    SumOf(x, y, p as real, q as real, r as real, s as real);
    Casts(q, s);
    Casts(p, s);
    Casts(r, q);
    Positive(q, s);
  }

  lemma ProductRatio(x: real, y: real, p: int, q: nat, r: int, s: nat)
    requires Ratio(x, p, q) && Ratio(y, r, s)
    ensures q * s > 0 && Ratio(x * y, p * r, q * s)
  {
    ProductOf(x, y, p as real, q as real, r as real, s as real);
    Casts(q, s);
    Casts(p, r);
    Positive(q, s);
  }

  lemma SumRational(x: real, y: real)
    requires Rational(x) && Rational(y)
    ensures Rational(x + y) && Rational(x - y)
  {
    var p: int, q: nat :| Ratio(x, p, q);
    var r: int, s: nat :| Ratio(y, r, s);
    SumRatio(x, y, p, q, r, s);
  }

  lemma ProductRational(x: real, y: real, z: real)
    requires Rational(x) && Rational(y) && z == x * y
    ensures Rational(z)
  {
    var p: int, q: nat :| Ratio(x, p, q);
    var r: int, s: nat :| Ratio(y, r, s);
    ProductRatio(x, y, p, q, r, s);
  }

  // ---------------------------------------------------------------------------
  // Candidate generation

  ghost predicate RationalSpec(spec: Spec) {
    Rational(spec.min) && Rational(spec.max) && Rational(spec.step) && Rational(spec.default)
  }

  ghost predicate RationalTable(specs: Table) {
    forall i :: 0 <= i < N ==> RationalSpec(specs[i])
  }

  ghost predicate RationalDraws(draws: seq<Draw>) {
    forall i :: 0 <= i < |draws| ==> Rational(draws[i].amount)
  }

  lemma OneIsRational()
    ensures Rational(1.0)
  {
    assert Ratio(1.0, 1, 1);
  }

  lemma MoveRational(spec: Spec, scale: real, amount: real)
    requires SpecOk(spec) && scale > 0.0 && 0.5 <= amount <= 1.0
    requires Rational(spec.step) && Rational(scale) && Rational(amount)
    ensures Rational(Move(StepSize(spec, scale), amount))
  {
    var size := StepSize(spec, scale);
    ProductRational(spec.step, scale, size);
    ProductRational(size, amount, Move(size, amount));
  }

  lemma SettleRational(spec: Spec, y: real)
    requires RationalSpec(spec) && !spec.isInt && Rational(y)
    ensures Rational(Settle(spec, y))
  {
    OneIsRational();
  }

  lemma CandidateRational(spec: Spec, aggressive: bool, x: real, d: Draw, move: real)
    requires RationalSpec(spec) && !spec.isInt && Rational(x) && Rational(move)
    ensures Rational(CandidateValue(spec, aggressive, x, d, move))
  {
    SumRational(x, move);
    SettleRational(spec, Target(spec, aggressive, x, d.direction, move));
  }

  /** Rational draws keep rational vectors rational. */
  lemma DrawsStayRational(specs: Table, aggressive: bool, scale: real, draws: seq<Draw>)
    requires TableOk(specs) && RationalTable(specs) && scale > 0.0 && Rational(scale)
    requires DrawsOk(draws) && RationalDraws(draws)
    ensures DrawsPrintable(specs, aggressive, scale, All(), draws)
  {
    forall v: Vector | PrintableVector(specs, All(), v)
      ensures PrintableVector(specs, All(), CandidateVector(specs, aggressive, scale, v, draws))
    {
      forall i | 0 <= i < N && !specs[i].isInt
        ensures CandidateVector(specs, aggressive, scale, v, draws)[i] in All()
      {
        assert RationalSpec(specs[i]) && v[i] in All();
        MoveRational(specs[i], scale, draws[i].amount);
        CandidateRational(specs[i], aggressive, v[i], draws[i], Move(StepSize(specs[i], scale), draws[i].amount));
      }
    }
  }

  lemma IntegralIsRational(x: real)
    requires Integral(x)
    ensures Rational(x)
  {
    assert Ratio(x, x.Floor, 1);
  }

  lemma StepRational(i: nat)
    requires i < N
    ensures Ratio(SPECS[i].step, [5000, 500, 5000, 10, 10, 30000, 100, 800, 500, 1600, 10000, 40000, 1][i], 100)
  {
  }

  lemma FloatSpecs()
    ensures RationalSpec(SPECS[3]) && RationalSpec(SPECS[4]) && RationalSpec(SPECS[N - 1])
  {
    assert Ratio(0.3, 3, 10) && Ratio(0.8, 8, 10) && Ratio(0.1, 1, 10) && Ratio(0.5, 5, 10);
    assert Ratio(0.4, 4, 10) && Ratio(0.01, 1, 100) && Ratio(0.2, 2, 10);
  }

  lemma SpecRational(i: nat)
    requires i < N
    ensures RationalSpec(SPECS[i])
  {
    if SPECS[i].isInt {
      SpecsOk(i);
      IntegralIsRational(SPECS[i].min);
      IntegralIsRational(SPECS[i].max);
      IntegralIsRational(SPECS[i].default);
      StepRational(i);
    } else {
      FloatSpecs();
    }
  }

  /**
   * The conditions on the text of floats can be met: with the tuner's own table, rational numbers have a text that
   * reads back, its defaults are among them, and all rational draws keep to them.
   */
  lemma TunerTableFits(aggressive: bool, scale: real, draws: seq<Draw>)
    requires scale > 0.0 && Rational(scale) && DrawsOk(draws) && RationalDraws(draws)
    ensures TableOk(SPECS) && FloatText(Show, Read, All()) && PrintableTable(SPECS, All())
    ensures DrawsPrintable(SPECS, aggressive, scale, All(), draws)
  {
    SpecTableOk();
    TextOk();
    forall i | 0 <= i < N ensures RationalSpec(SPECS[i]) {
      SpecRational(i);
    }
    DrawsStayRational(SPECS, aggressive, scale, draws);
  }

  /** So every session whose scale and draws are rational meets what tuning from file to file asks. */
  lemma TunerWorldFits(c: Annealing.Config, w: Annealing.World)
    requires Annealing.ConfigOk(c) && Annealing.WorldOk(w) && Rational(c.scale)
    requires forall k: nat {:trigger w.draws(k)} :: RationalDraws(w.draws(k))
    ensures TableOk(SPECS) && Annealing.KeepsPrintable(SPECS, c, w, All())
  {
    SpecTableOk();
    forall k: nat ensures DrawsPrintable(SPECS, w.aggressive, c.scale, All(), w.draws(k)) {
      assert DrawsOk(w.draws(k)) && RationalDraws(w.draws(k));
      TunerTableFits(w.aggressive, c.scale, w.draws(k));
    }
  }

  /** And a missing parameter file holds the defaults. */
  lemma NoFileHoldsDefaults()
    ensures Annealing.Holds(SPECS, Read, [], Defaults(SPECS))
  {
    SpecTableOk();
    DefaultsOk(SPECS);
    NormalizeOrdered(Defaults(SPECS));
    assert OrDefault(SPECS, map[]) == Defaults(SPECS);
    assert ParseLines(SPECS, Read, []) == Parsed(map[]);
  }
}
