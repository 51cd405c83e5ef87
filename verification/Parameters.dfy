/** The tunable parameter vector: candidate generation, normalisation, and the parameter file. Numbers are reals. */
module Parameters {
  import opened Collections
  import opened Text

  datatype Spec = Spec(name: string, isInt: bool, aggressiveDirection: int, min: real, max: real, step: real,
                       default: real)

  type Vector = seq<real>

  const SPECS: seq<Spec> := [
    Spec("time_reset", true, -1, 50.0, 600.0, 50.0, 300.0),
    Spec("ai_rate", true, 1, 5.0, 100.0, 5.0, 5.0),
    Spec("hai_rate", true, 1, 30.0, 600.0, 50.0, 50.0),
    Spec("rate_to_set_on_first_cnp", false, 1, 0.3, 0.8, 0.1, 0.5),
    Spec("rpg_min_dec_fac", false, -1, 0.3, 0.8, 0.1, 0.5),
    Spec("rpg_min_rate", true, 1, 1.0, 5000.0, 300.0, 1.0),
    Spec("rpg_gd", true, 1, 11.0, 13.0, 1.0, 11.0),
    Spec("min_time_between_cnps", true, 1, 4.0, 128.0, 8.0, 4.0),
    Spec("dce_tcp_g", true, -1, 960.0, 1020.0, 5.0, 1019.0),
    Spec("initial_alpha_value", true, -1, 1.0, 1023.0, 16.0, 1023.0),
    Spec("kmin", true, 1, 40.0, 1600.0, 100.0, 400.0),
    Spec("kmax", true, 1, 480.0, 6400.0, 400.0, 1600.0),
    Spec("pmax", false, -1, 0.1, 0.4, 0.01, 0.2)]

  const N: nat := 13
  const KMIN: nat := 10
  const KMAX: nat := 11

  type Table = specs: seq<Spec> | |specs| == N witness SPECS

  // ---------------------------------------------------------------------------
  // What a vector must satisfy

  ghost predicate Integral(x: real) {
    x == x.Floor as real
  }

  ghost predicate InRange(spec: Spec, x: real) {
    spec.min <= x <= spec.max && (spec.isInt ==> Integral(x))
  }

  ghost predicate InBounds(specs: Table, v: Vector) {
    |v| == N && forall i :: 0 <= i < N ==> InRange(specs[i], v[i])
  }

  ghost predicate Ordered(v: Vector) {
    |v| == N && v[KMIN] <= v[KMAX]
  }

  /** What the specification table itself satisfies. */
  ghost predicate SpecOk(spec: Spec) {
    && 0.0 <= spec.min <= spec.default <= spec.max
    && spec.step >= 0.0
    && (spec.isInt ==> Integral(spec.min) && Integral(spec.max) && Integral(spec.default))
    && (!spec.isInt ==> spec.max <= 1.0)
    && (spec.aggressiveDirection == 1 || spec.aggressiveDirection == -1)
  }

  ghost predicate TableOk(specs: Table) {
    && (forall i :: 0 <= i < N ==> SpecOk(specs[i]) && IsClean(specs[i].name))
    && (forall i, j :: 0 <= i < j < N ==> specs[i].name != specs[j].name)
    && specs[KMIN].min <= specs[KMAX].min && specs[KMIN].max <= specs[KMAX].max
    && specs[KMIN].isInt && specs[KMAX].isInt
    && specs[KMIN].default <= specs[KMAX].default
  }

  // ---------------------------------------------------------------------------
  // Normalisation

  function Normalize(v: Vector): Vector
    requires |v| == N
  {
    if v[KMIN] > v[KMAX] then v[KMIN := v[KMAX]][KMAX := v[KMIN]] else v
  }

  /** The swap orders the two thresholds and keeps every range. */
  lemma NormalizeKeepsBounds(specs: Table, v: Vector)
    requires TableOk(specs) && InBounds(specs, v)
    ensures InBounds(specs, Normalize(v)) && Ordered(Normalize(v))
  {
    assert InRange(specs[KMIN], v[KMIN]) && InRange(specs[KMAX], v[KMAX]);
  }

  lemma NormalizeOrdered(v: Vector)
    requires |v| == N
    ensures Ordered(Normalize(v)) && Normalize(Normalize(v)) == Normalize(v)
    ensures Ordered(v) ==> Normalize(v) == v
  {
  }

  function Defaults(specs: Table): Vector {
    seq(N, i requires 0 <= i < N => specs[i].default)
  }

  lemma DefaultsOk(specs: Table)
    requires TableOk(specs)
    ensures InBounds(specs, Defaults(specs)) && Ordered(Defaults(specs))
  {
  }

  // ---------------------------------------------------------------------------
  // Candidate generation

  /** The random choices for one parameter. */
  datatype Draw = Draw(mutate: bool, direction: int, amount: real)

  ghost predicate DrawOk(d: Draw) {
    (d.direction == 1 || d.direction == -1) && 0.5 <= d.amount <= 1.0
  }

  /** Rounding to the nearest integer, ties to even. */
  function Round(x: real): int {
    var f := x.Floor;
    var rest := x - f as real;
    if rest < 0.5 then f else if rest > 0.5 then f + 1 else if f % 2 == 0 then f else f + 1
  }

  function Clamp(spec: Spec, x: real): real {
    var y := if x > spec.max then spec.max else x;
    if y < spec.min then spec.min else y
  }

  /** The proposed value: up when the mode's sign and the drawn direction agree, down otherwise. */
  function Target(spec: Spec, aggressive: bool, x: real, direction: int, move: real): real {
    var modeSign := if aggressive then spec.aggressiveDirection else -spec.aggressiveDirection;
    if modeSign == direction then x + move else x - move
  }

  function Settle(spec: Spec, y: real): real {
    Clamp(spec, if spec.isInt then Round(y) as real else if y > 1.0 then 1.0 else y)
  }

  /** A parameter is mutated by `move` or kept. */
  function CandidateValue(spec: Spec, aggressive: bool, x: real, d: Draw, move: real): real {
    if d.mutate then Settle(spec, Target(spec, aggressive, x, d.direction, move)) else x
  }

  ghost predicate DrawsOk(draws: seq<Draw>) {
    |draws| == N && forall i :: 0 <= i < |draws| ==> DrawOk(draws[i])
  }

  function StepSize(spec: Spec, scale: real): (size: real)
    requires SpecOk(spec) && scale > 0.0
    ensures size >= 0.0
  {
    spec.step * scale
  }

  function Move(size: real, amount: real): (move: real)
    requires size >= 0.0 && 0.5 <= amount <= 1.0
    ensures 0.0 <= move <= size
  {
    assert size * amount <= size * 1.0;
    size * amount
  }

  function CandidateVector(specs: Table, aggressive: bool, scale: real, current: Vector, draws: seq<Draw>): Vector
    requires TableOk(specs) && scale > 0.0 && |current| == N && DrawsOk(draws)
  {
    seq(N, i requires 0 <= i < N => CandidateValue(specs[i], aggressive, current[i], draws[i],
        Move(StepSize(specs[i], scale), draws[i].amount)))
  }

  function Distance(x: real, y: real): real {
    if x < y then y - x else x - y
  }

  /** The farthest one round may move a parameter: its scaled step, plus rounding. */
  function Reach(spec: Spec, size: real): real {
    size + if spec.isInt then 0.5 else 0.0
  }

  /** The drawn direction decides on which side of the old value the new one lies. */
  lemma MovesInDirection(spec: Spec, aggressive: bool, x: real, direction: int, move: real)
    requires SpecOk(spec) && InRange(spec, x) && move >= 0.0 && (direction == 1 || direction == -1)
    ensures var y := Settle(spec, Target(spec, aggressive, x, direction, move));
      if aggressive == (spec.aggressiveDirection == direction) then y >= x else y <= x
  {
    SettleMonotone(spec, x, Target(spec, aggressive, x, direction, move));
  }

  lemma SettleMonotone(spec: Spec, x: real, y: real)
    requires SpecOk(spec) && InRange(spec, x)
    ensures y >= x ==> Settle(spec, y) >= x
    ensures y <= x ==> Settle(spec, y) <= x
  {
    if spec.isInt {
      RoundMonotone(x.Floor, y);
      ClampMonotone(spec, x, Round(y) as real);
    } else {
      ClampMonotone(spec, x, if y > 1.0 then 1.0 else y);
    }
  }

  lemma RoundMonotone(n: int, y: real)
    ensures y >= n as real ==> Round(y) >= n
    ensures y <= n as real ==> Round(y) <= n
  {
    assert y.Floor as real <= y < y.Floor as real + 1.0;
  }

  lemma ClampMonotone(spec: Spec, x: real, z: real)
    requires spec.min <= x <= spec.max
    ensures z >= x ==> Clamp(spec, z) >= x
    ensures z <= x ==> Clamp(spec, z) <= x
  {
  }

  lemma RoundNear(x: real)
    ensures -0.5 <= Round(x) as real - x <= 0.5 && Integral(Round(x) as real)
  {
  }

  lemma SettleMoves(spec: Spec, x: real, y: real, size: real)
    requires SpecOk(spec) && InRange(spec, x) && Distance(x, y) <= size
    ensures InRange(spec, Settle(spec, y)) && Distance(x, Settle(spec, y)) <= Reach(spec, size)
  {
    RoundNear(y);
    var z := if spec.isInt then Round(y) as real else if y > 1.0 then 1.0 else y;
    ClampMoves(spec, x, z, Reach(spec, size));
  }

  lemma ClampMoves(spec: Spec, x: real, z: real, r: real)
    requires SpecOk(spec) && InRange(spec, x) && Distance(x, z) <= r && (spec.isInt ==> Integral(z))
    ensures InRange(spec, Clamp(spec, z)) && Distance(x, Clamp(spec, z)) <= r
  {
  }

  lemma CandidateMoves(spec: Spec, aggressive: bool, x: real, d: Draw, size: real, move: real)
    requires SpecOk(spec) && InRange(spec, x) && DrawOk(d) && 0.0 <= move <= size
    ensures InRange(spec, CandidateValue(spec, aggressive, x, d, move))
    ensures Distance(x, CandidateValue(spec, aggressive, x, d, move)) <= Reach(spec, size)
  {
    SettleMoves(spec, x, Target(spec, aggressive, x, d.direction, move), size);
  }

  lemma RoundTiesToEven(x: real)
    ensures x - x.Floor as real == 0.5 ==> Round(x) % 2 == 0
    ensures x == x.Floor as real ==> Round(x) == x.Floor
  {
  }

  /** Where a mutated parameter is sent: its step times scale and drawn amount, with the sign of mode and draw. */
  ghost function Sent(spec: Spec, aggressive: bool, scale: real, x: real, d: Draw): real {
    var sign := (if aggressive then spec.aggressiveDirection else -spec.aggressiveDirection) * d.direction;
    x + sign as real * (spec.step * scale * d.amount)
  }

  /** What the loop of the generator makes of one parameter. */
  ghost function Generated(spec: Spec, aggressive: bool, scale: real, x: real, d: Draw): real
    requires SpecOk(spec) && scale > 0.0 && DrawOk(d)
  {
    CandidateValue(spec, aggressive, x, d, Move(StepSize(spec, scale), d.amount))
  }

  lemma SentIsTarget(spec: Spec, aggressive: bool, scale: real, x: real, d: Draw)
    requires SpecOk(spec) && scale > 0.0 && DrawOk(d)
    ensures Target(spec, aggressive, x, d.direction, Move(StepSize(spec, scale), d.amount))
         == Sent(spec, aggressive, scale, x, d)
  {
    var move := spec.step * scale * d.amount;
    assert Move(StepSize(spec, scale), d.amount) == move;
    Signed(move);
  }

  lemma Signed(move: real)
    ensures 1.0 * move == move && -1.0 * move == -move
  {
  }

  /**
   * A parameter that is not mutated keeps its value. A mutated one goes exactly where it is sent, integers to the
   * nearest integer, but no further than its bounds.
   */
  lemma GeneratedExactly(spec: Spec, aggressive: bool, scale: real, x: real, d: Draw)
    requires SpecOk(spec) && scale > 0.0 && DrawOk(d)
    ensures var y, target := Generated(spec, aggressive, scale, x, d), Sent(spec, aggressive, scale, x, d);
      && (!d.mutate ==> y == x)
      && (d.mutate && target <= spec.min ==> y == spec.min)
      && (d.mutate && target >= spec.max ==> y == spec.max)
      && (d.mutate && spec.min <= target <= spec.max && !spec.isInt ==> y == target)
      && (d.mutate && spec.min <= target <= spec.max && spec.isInt ==> Integral(y) && target - 0.5 <= y <= target + 0.5)
  {
    SentIsTarget(spec, aggressive, scale, x, d);
    SettledExactly(spec, Sent(spec, aggressive, scale, x, d));
  }

  lemma SettledExactly(spec: Spec, target: real)
    requires SpecOk(spec)
    ensures var y := Settle(spec, target);
      && (target <= spec.min ==> y == spec.min)
      && (target >= spec.max ==> y == spec.max)
      && (spec.min <= target <= spec.max && !spec.isInt ==> y == target)
      && (spec.min <= target <= spec.max && spec.isInt ==> Integral(y) && target - 0.5 <= y <= target + 0.5)
  {
    if spec.isInt {
      RoundMonotone(spec.min.Floor, target);
      RoundMonotone(spec.max.Floor, target);
      RoundNear(target);
    }
  }

  /** What the generator returns: each parameter as above, the two thresholds in order. */
  lemma CandidateIs(specs: Table, aggressive: bool, scale: real, current: Vector, draws: seq<Draw>)
    requires TableOk(specs) && scale > 0.0 && |current| == N && DrawsOk(draws)
    ensures var v := Normalize(CandidateVector(specs, aggressive, scale, current, draws));
      && |v| == N
      && (forall i :: 0 <= i < N && i != KMIN && i != KMAX ==>
            v[i] == Generated(specs[i], aggressive, scale, current[i], draws[i]))
      && var a := Generated(specs[KMIN], aggressive, scale, current[KMIN], draws[KMIN]);
         var b := Generated(specs[KMAX], aggressive, scale, current[KMAX], draws[KMAX]);
         if a <= b then v[KMIN] == a && v[KMAX] == b else v[KMIN] == b && v[KMAX] == a
  {
  }

  /** How far each parameter may move; the two thresholds may trade places, so they share the larger reach. */
  function RoundReach(specs: Table, i: nat, scale: real): real
    requires i < N && TableOk(specs) && scale > 0.0
  {
    var a, b := Reach(specs[KMIN], StepSize(specs[KMIN], scale)), Reach(specs[KMAX], StepSize(specs[KMAX], scale));
    if i == KMIN || i == KMAX then (if a < b then b else a) else Reach(specs[i], StepSize(specs[i], scale))
  }

  /** One generation round from an in-bounds vector stays in bounds, ordered, and within reach of it. */
  method GenerateNewParameters(specs: Table, aggressive: bool, scale: real, current: Vector, draws: seq<Draw>)
    returns (v: Vector)
    requires TableOk(specs) && scale > 0.0 && InBounds(specs, current) && Ordered(current) && DrawsOk(draws)
    ensures v == Normalize(CandidateVector(specs, aggressive, scale, current, draws))
    ensures InBounds(specs, v) && Ordered(v)
    ensures forall i :: 0 <= i < N ==> Distance(current[i], v[i]) <= RoundReach(specs, i, scale)
  {
    var solution: Vector := [];
    for i := 0 to N
      invariant |solution| == i
      invariant forall j :: 0 <= j < i ==>
        solution[j] == CandidateValue(specs[j], aggressive, current[j], draws[j],
            Move(StepSize(specs[j], scale), draws[j].amount))
    {
      var value := Candidate(specs[i], aggressive, current[i], draws[i],
          Move(StepSize(specs[i], scale), draws[i].amount));
      solution := solution + [value];
    }
    assert solution == CandidateVector(specs, aggressive, scale, current, draws);
    CandidatesMove(specs, aggressive, scale, current, draws);
    v := Normalize(solution);
  }

  /** The loop body: one parameter, mutated or kept. */
  method Candidate(spec: Spec, aggressive: bool, x: real, d: Draw, move: real) returns (y: real)
    ensures y == CandidateValue(spec, aggressive, x, d, move)
  {
    if !d.mutate {
      return x;
    }
    var modeSign := if aggressive then spec.aggressiveDirection else -spec.aggressiveDirection;
    y := if modeSign == d.direction then x + move else x - move;
    if spec.isInt {
      y := Round(y) as real;
    } else if y > 1.0 {
      y := 1.0;
    }
    if y > spec.max {
      y := spec.max;
    }
    if y < spec.min {
      y := spec.min;
    }
  }

  lemma CandidatesMove(specs: Table, aggressive: bool, scale: real, current: Vector, draws: seq<Draw>)
    requires TableOk(specs) && scale > 0.0 && InBounds(specs, current) && Ordered(current) && DrawsOk(draws)
    ensures var v := CandidateVector(specs, aggressive, scale, current, draws);
      && InBounds(specs, Normalize(v)) && Ordered(Normalize(v))
      && forall i :: 0 <= i < N ==> Distance(current[i], Normalize(v)[i]) <= RoundReach(specs, i, scale)
  {
    var v := CandidateVector(specs, aggressive, scale, current, draws);
    forall i | 0 <= i < N
      ensures InRange(specs[i], v[i]) && Distance(current[i], v[i]) <= Reach(specs[i], StepSize(specs[i], scale))
    {
      var size := StepSize(specs[i], scale);
      CandidateMoves(specs[i], aggressive, current[i], draws[i], size, Move(size, draws[i].amount));
    }
    NormalizeKeepsBounds(specs, v);
    NormalizeMoves(specs, current, v, scale);
  }

  lemma NormalizeMoves(specs: Table, current: Vector, v: Vector, scale: real)
    requires TableOk(specs) && scale > 0.0 && InBounds(specs, current) && Ordered(current) && |v| == N
    requires forall i :: 0 <= i < N ==> Distance(current[i], v[i]) <= Reach(specs[i], StepSize(specs[i], scale))
    ensures forall i :: 0 <= i < N ==> Distance(current[i], Normalize(v)[i]) <= RoundReach(specs, i, scale)
  {
    assert Distance(current[KMIN], v[KMIN]) <= Reach(specs[KMIN], StepSize(specs[KMIN], scale));
    assert Distance(current[KMAX], v[KMAX]) <= Reach(specs[KMAX], StepSize(specs[KMAX], scale));
  }

  // ---------------------------------------------------------------------------
  // The parameter file

  /** Text with neither white space nor an equals sign. */
  predicate IsClean(s: string) {
    IsToken(s) && forall i :: 0 <= i < |s| ==> s[i] != '='
  }

  /** How floats are written and read back: on the printable numbers reading undoes writing, and it gives no others. */
  ghost predicate FloatText(show: real -> string, read: string -> Option<real>, printable: iset<real>) {
    && (forall x :: x in printable ==> IsClean(show(x)) && read(show(x)) == Some(x))
    && (forall text :: read(text).Some? ==> read(text).value in printable)
  }

  /** The components that are written as floats are printable. */
  ghost predicate PrintableVector(specs: Table, printable: iset<real>, v: Vector) {
    |v| == N && forall i :: 0 <= i < N && !specs[i].isInt ==> v[i] in printable
  }

  ghost predicate PrintableTable(specs: Table, printable: iset<real>) {
    PrintableVector(specs, printable, Defaults(specs))
  }

  /** Candidates drawn from printable vectors are printable. */
  ghost predicate DrawsPrintable(specs: Table, aggressive: bool, scale: real, printable: iset<real>, draws: seq<Draw>)
    requires TableOk(specs) && scale > 0.0 && DrawsOk(draws)
  {
    forall v: Vector {:trigger CandidateVector(specs, aggressive, scale, v, draws)} ::
      PrintableVector(specs, printable, v) ==>
        PrintableVector(specs, printable, CandidateVector(specs, aggressive, scale, v, draws))
  }

  lemma DefaultsPrintable(specs: Table, printable: iset<real>)
    requires PrintableTable(specs, printable)
    ensures PrintableVector(specs, printable, Defaults(specs))
  {
  }

  /** The two thresholds that may trade places are integers. */
  lemma NormalizePrintable(specs: Table, printable: iset<real>, v: Vector)
    requires TableOk(specs) && PrintableVector(specs, printable, v)
    ensures PrintableVector(specs, printable, Normalize(v))
  {
  }

  function ValueText(show: real -> string, spec: Spec, x: real): string {
    if spec.isInt then IntegerText(x.Floor) else show(x)
  }

  function ParameterLine(show: real -> string, spec: Spec, x: real): string {
    spec.name + "=" + ValueText(show, spec, x)
  }

  ghost predicate IsFileOf(specs: Table, show: real -> string, v: Vector, lines: seq<string>) {
    |v| == N && |lines| == N && forall i :: 0 <= i < N ==> lines[i] == ParameterLine(show, specs[i], v[i])
  }

  method WriteParameters(specs: Table, show: real -> string, v: Vector) returns (lines: seq<string>)
    requires |v| == N
    ensures IsFileOf(specs, show, Normalize(v), lines)
  {
    var values := Normalize(v);
    lines := [];
    for i := 0 to N
      invariant |lines| == i && forall j :: 0 <= j < i ==> lines[j] == ParameterLine(show, specs[j], values[j])
    {
      lines := lines + [ParameterLine(show, specs[i], values[i])];
    }
  }

  /** Pieces between equals signs. */
  function SplitEquals(s: string): (parts: seq<string>)
    ensures |parts| >= 1
  {
    if s == "" then [""] else
      var rest := SplitEquals(s[1..]);
      if s[0] == '=' then [""] + rest else [[s[0]] + rest[0]] + rest[1..]
  }

  /** The first specification with this name. */
  function FindSpec(specs: Table, name: string, i: nat): Option<nat>
    requires i <= N
    decreases N - i
  {
    if i == N then None else if specs[i].name == name then Some(i) else FindSpec(specs, name, i + 1)
  }

  function ParseValue(read: string -> Option<real>, spec: Spec, text: string): Option<real> {
    if !spec.isInt then read(text) else
      match ParseInteger(text)
      case Some(n) => Some(n as real)
      case None => None
  }

  datatype Parsed = Parsed(values: map<nat, real>) | ValueError

  /** One line: blank and unknown names are skipped, a malformed line raises. */
  function ParseLine(specs: Table, read: string -> Option<real>, sofar: map<nat, real>, line: string): Parsed {
    var text := Trim(line);
    var parts := SplitEquals(text);
    if text == "" then Parsed(sofar)
    else if |parts| != 2 then ValueError
    else match FindSpec(specs, parts[0], 0)
      case None => Parsed(sofar)
      case Some(i) =>
        if i >= N then Parsed(sofar) else
        match ParseValue(read, specs[i], Trim(parts[1]))
        case Some(x) => Parsed(sofar[i := x])
        case None => ValueError
  }

  function OrDefault(specs: Table, values: map<nat, real>): Vector {
    seq(N, i requires 0 <= i < N => if i in values then values[i] else specs[i].default)
  }

  ghost function ParseLines(specs: Table, read: string -> Option<real>, lines: seq<string>): Parsed {
    if lines == [] then Parsed(map[]) else
      match ParseLines(specs, read, lines[..|lines| - 1])
      case ValueError => ValueError
      case Parsed(values) => ParseLine(specs, read, values, lines[|lines| - 1])
  }

  /** The vector a file stands for. */
  ghost function Load(specs: Table, read: string -> Option<real>, lines: seq<string>): Option<Vector> {
    match ParseLines(specs, read, lines)
    case Parsed(values) => Some(Normalize(OrDefault(specs, values)))
    case ValueError => None
  }

  /** A missing or empty file gives the defaults, which is what no lines give. */
  method LoadCurrentParameters(specs: Table, read: string -> Option<real>, lines: seq<string>)
    returns (v: Option<Vector>)
    ensures v == Load(specs, read, lines)
  {
    var values: map<nat, real> := map[];
    for i := 0 to |lines|
      invariant ParseLines(specs, read, lines[..i]) == Parsed(values)
    {
      assert lines[..i + 1][..i] == lines[..i];
      match ParseLine(specs, read, values, lines[i])
      case ValueError =>
        StaysFailed(specs, read, lines, i + 1);
        return None;
      case Parsed(next) => values := next;
    }
    assert lines[..|lines|] == lines;
    v := Some(Normalize(OrDefault(specs, values)));
  }

  lemma {:induction false} StaysFailed(specs: Table, read: string -> Option<real>, lines: seq<string>, i: nat)
    requires i <= |lines| && ParseLines(specs, read, lines[..i]).ValueError?
    ensures ParseLines(specs, read, lines).ValueError?
    decreases |lines| - i
  {
    if i == |lines| {
      assert lines[..i] == lines;
    } else {
      assert lines[..i + 1][..i] == lines[..i];
      StaysFailed(specs, read, lines, i + 1);
    }
  }

  // ---------------------------------------------------------------------------
  // Load after write

  lemma {:induction false} SpecFound(specs: Table, i: nat, k: nat)
    requires TableOk(specs) && k <= i < N
    ensures FindSpec(specs, specs[i].name, k) == Some(i)
    decreases i - k
  {
    if k < i {
      SpecFound(specs, i, k + 1);
    }
  }

  ghost predicate NoEquals(s: string) {
    forall i :: 0 <= i < |s| ==> s[i] != '='
  }

  lemma {:induction false} SplitNone(s: string)
    requires NoEquals(s)
    ensures SplitEquals(s) == [s]
  {
    if s != "" {
      SplitNone(s[1..]);
      assert [s[0]] + s[1..] == s;
    }
  }

  lemma {:induction false} SplitOnce(name: string, text: string)
    requires NoEquals(name) && NoEquals(text)
    ensures SplitEquals(name + "=" + text) == [name, text]
  {
    var s := name + "=" + text;
    if name == "" {
      assert s[1..] == text;
      SplitNone(text);
    } else {
      assert s[1..] == name[1..] + "=" + text;
      SplitOnce(name[1..], text);
      assert [name[0]] + name[1..] == name;
    }
  }

  lemma ValueTextReads(show: real -> string, read: string -> Option<real>, printable: iset<real>, spec: Spec, x: real)
    requires FloatText(show, read, printable) && InRange(spec, x) && (spec.isInt || x in printable)
    ensures IsClean(ValueText(show, spec, x)) && ParseValue(read, spec, ValueText(show, spec, x)) == Some(x)
  {
    if spec.isInt {
      IntegerRoundTrip(x.Floor);
      IntegerClean(x.Floor);
    }
  }

  lemma IntegerClean(n: int)
    ensures IsClean(IntegerText(n))
  {
    var s := IntegerText(n);
    forall i | 0 <= i < |s| ensures !IsSpace(s[i]) && s[i] != '=' {
      assert s[i] == '-' || IsDigit(s[i]);
    }
  }

  lemma LineReads(specs: Table, show: real -> string, read: string -> Option<real>, printable: iset<real>, i: nat,
                  x: real, sofar: map<nat, real>)
    requires TableOk(specs) && FloatText(show, read, printable) && i < N
    requires InRange(specs[i], x) && (specs[i].isInt || x in printable)
    ensures ParseLine(specs, read, sofar, ParameterLine(show, specs[i], x)) == Parsed(sofar[i := x])
  {
    SpecFound(specs, i, 0);
    ValueTextReads(show, read, printable, specs[i], x);
    var name, text := specs[i].name, ValueText(show, specs[i], x);
    var line := name + "=" + text;
    SplitOnce(name, text);
    assert line[0] == name[0] && line[|line| - 1] == text[|text| - 1];
    assert Trim(line) == line && Trim(text) == text;
  }

  ghost function FirstValues(v: Vector, k: nat): map<nat, real>
    requires k <= |v|
  {
    if k == 0 then map[] else FirstValues(v, k - 1)[k - 1 := v[k - 1]]
  }

  lemma {:induction false} FirstValuesAre(v: Vector, k: nat)
    requires k <= |v|
    ensures forall i: nat :: i in FirstValues(v, k) <==> i < k
    ensures forall i :: 0 <= i < k ==> FirstValues(v, k)[i] == v[i]
  {
    if k > 0 {
      FirstValuesAre(v, k - 1);
    }
  }

  lemma {:induction false} FileParses(specs: Table, show: real -> string, read: string -> Option<real>,
                                      printable: iset<real>, v: Vector, lines: seq<string>, k: nat)
    requires TableOk(specs) && FloatText(show, read, printable) && InBounds(specs, v)
    requires PrintableVector(specs, printable, v) && IsFileOf(specs, show, v, lines) && k <= N
    ensures ParseLines(specs, read, lines[..k]) == Parsed(FirstValues(v, k))
  {
    if k > 0 {
      FileParses(specs, show, read, printable, v, lines, k - 1);
      assert lines[..k][..k - 1] == lines[..k - 1];
      assert lines[..k][k - 1] == ParameterLine(show, specs[k - 1], v[k - 1]);
      LineReads(specs, show, read, printable, k - 1, v[k - 1], FirstValues(v, k - 1));
    }
  }

  /** Loading the file that was written for a printable vector in bounds gives the normalised vector back. */
  lemma LoadAfterWrite(specs: Table, show: real -> string, read: string -> Option<real>, printable: iset<real>,
                       v: Vector, lines: seq<string>)
    requires TableOk(specs) && FloatText(show, read, printable) && InBounds(specs, v)
    requires PrintableVector(specs, printable, v) && IsFileOf(specs, show, Normalize(v), lines)
    ensures Load(specs, read, lines) == Some(Normalize(v))
    ensures Ordered(v) ==> Load(specs, read, lines) == Some(v)
  {
    var n := Normalize(v);
    NormalizeKeepsBounds(specs, v);
    NormalizeOrdered(v);
    NormalizePrintable(specs, printable, v);
    FileParses(specs, show, read, printable, n, lines, N);
    assert lines[..N] == lines;
    FirstValuesAre(n, N);
    assert OrDefault(specs, FirstValues(n, N)) == n;
  }

  /** What a line gives to a float parameter is printable. */
  ghost predicate PrintableValues(specs: Table, printable: iset<real>, values: map<nat, real>) {
    forall i <- values :: i < N && !specs[i].isInt ==> values[i] in printable
  }

  lemma {:induction false} ParsedPrintable(specs: Table, show: real -> string, read: string -> Option<real>,
                                           printable: iset<real>, lines: seq<string>)
    requires FloatText(show, read, printable)
    ensures var r := ParseLines(specs, read, lines); r.Parsed? ==> PrintableValues(specs, printable, r.values)
  {
    if lines != [] {
      ParsedPrintable(specs, show, read, printable, lines[..|lines| - 1]);
    }
  }

  /** Whatever file is loaded, the vector is printable. */
  lemma LoadPrintable(specs: Table, show: real -> string, read: string -> Option<real>, printable: iset<real>,
                      lines: seq<string>, v: Vector)
    requires TableOk(specs) && FloatText(show, read, printable) && PrintableTable(specs, printable)
    requires Load(specs, read, lines) == Some(v)
    ensures PrintableVector(specs, printable, v)
  {
    ParsedPrintable(specs, show, read, printable, lines);
    DefaultsPrintable(specs, printable);
    var values := ParseLines(specs, read, lines).values;
    forall i | 0 <= i < N && !specs[i].isInt ensures OrDefault(specs, values)[i] in printable {
      assert Defaults(specs)[i] == specs[i].default;
    }
    NormalizePrintable(specs, printable, OrDefault(specs, values));
  }

  // ---------------------------------------------------------------------------
  // Files that are not as written: other lines, missing and repeated names, malformed lines

  ghost predicate Unknown(specs: Table, name: string) {
    forall i :: 0 <= i < N ==> specs[i].name != name
  }

  /** A blank line, or one value for a name that is no parameter. */
  ghost predicate Ignorable(specs: Table, line: string) {
    var parts := SplitEquals(Trim(line));
    Trim(line) == "" || (|parts| == 2 && Unknown(specs, parts[0]))
  }

  /** A line with text, but without exactly one equals sign. */
  ghost predicate Malformed(line: string) {
    Trim(line) != "" && |SplitEquals(Trim(line))| != 2
  }

  lemma {:induction false} UnknownNotFound(specs: Table, name: string, k: nat)
    requires Unknown(specs, name) && k <= N
    ensures FindSpec(specs, name, k) == None
    decreases N - k
  {
    if k < N {
      UnknownNotFound(specs, name, k + 1);
    }
  }

  lemma IgnoredLine(specs: Table, read: string -> Option<real>, sofar: map<nat, real>, line: string)
    requires Ignorable(specs, line)
    ensures ParseLine(specs, read, sofar, line) == Parsed(sofar)
  {
    if Trim(line) != "" {
      UnknownNotFound(specs, SplitEquals(Trim(line))[0], 0);
    }
  }

  ghost function KeptLines(specs: Table, lines: seq<string>): seq<string> {
    if lines == [] then [] else
      KeptLines(specs, lines[..|lines| - 1])
        + if Ignorable(specs, lines[|lines| - 1]) then [] else [lines[|lines| - 1]]
  }

  lemma {:induction false} IgnoredLines(specs: Table, read: string -> Option<real>, lines: seq<string>)
    ensures ParseLines(specs, read, lines) == ParseLines(specs, read, KeptLines(specs, lines))
  {
    if lines != [] {
      var before, last := lines[..|lines| - 1], lines[|lines| - 1];
      IgnoredLines(specs, read, before);
      var r := ParseLines(specs, read, before);
      if Ignorable(specs, last) {
        if r.Parsed? {
          IgnoredLine(specs, read, r.values, last);
        }
        assert KeptLines(specs, lines) == KeptLines(specs, before);
      } else {
        assert (KeptLines(specs, before) + [last])[..|KeptLines(specs, before)|] == KeptLines(specs, before);
      }
    }
  }

  /** One malformed line anywhere makes loading raise. */
  lemma MalformedRaises(specs: Table, read: string -> Option<real>, lines: seq<string>, i: nat)
    requires i < |lines| && Malformed(lines[i])
    ensures Load(specs, read, lines) == None
  {
    assert lines[..i + 1][..i] == lines[..i];
    StaysFailed(specs, read, lines, i + 1);
  }

  /** So does a line that is cut off before its equals sign. */
  lemma CutOffIsMalformed(part: string)
    requires IsToken(part) && NoEquals(part)
    ensures Malformed(part)
  {
    SplitNone(part);
    assert Trim(part) == part;
  }

  /** The value of the last line of each parameter. */
  ghost function MapOf(pairs: seq<(nat, real)>): map<nat, real> {
    if pairs == [] then map[] else
      MapOf(pairs[..|pairs| - 1])[pairs[|pairs| - 1].0 := pairs[|pairs| - 1].1]
  }

  ghost predicate PairOk(specs: Table, printable: iset<real>, pair: (nat, real)) {
    pair.0 < N && InRange(specs[pair.0], pair.1) && (specs[pair.0].isInt || pair.1 in printable)
  }

  /** The lines are written for these parameters and values, in any order, with omissions and repetitions. */
  ghost predicate WrittenFor(specs: Table, show: real -> string, printable: iset<real>, pairs: seq<(nat, real)>,
                             lines: seq<string>) {
    && |lines| == |pairs|
    && forall k :: 0 <= k < |pairs| ==>
         PairOk(specs, printable, pairs[k]) && lines[k] == ParameterLine(show, specs[pairs[k].0], pairs[k].1)
  }

  lemma {:induction false} PairsParse(specs: Table, show: real -> string, read: string -> Option<real>,
                                      printable: iset<real>, pairs: seq<(nat, real)>, lines: seq<string>)
    requires TableOk(specs) && FloatText(show, read, printable) && WrittenFor(specs, show, printable, pairs, lines)
    ensures ParseLines(specs, read, lines) == Parsed(MapOf(pairs))
  {
    if pairs != [] {
      var n := |pairs| - 1;
      PairsParse(specs, show, read, printable, pairs[..n], lines[..n]);
      assert PairOk(specs, printable, pairs[n]);
      LineReads(specs, show, read, printable, pairs[n].0, pairs[n].1, MapOf(pairs[..n]));
    }
  }

  /**
   * Among any blank lines and unknown names: each parameter has the value of its last line, or its default if it has
   * none, and the two thresholds are put in order.
   */
  lemma LoadExactly(specs: Table, show: real -> string, read: string -> Option<real>, printable: iset<real>,
                    pairs: seq<(nat, real)>, lines: seq<string>) returns (v: Vector)
    requires TableOk(specs) && FloatText(show, read, printable)
    requires WrittenFor(specs, show, printable, pairs, KeptLines(specs, lines))
    ensures |v| == N && Load(specs, read, lines) == Some(Normalize(v))
    ensures forall i: nat :: i < N ==> v[i] == if i in MapOf(pairs) then MapOf(pairs)[i] else specs[i].default
  {
    IgnoredLines(specs, read, lines);
    PairsParse(specs, show, read, printable, pairs, KeptLines(specs, lines));
    v := OrDefault(specs, MapOf(pairs));
  }

  // ---------------------------------------------------------------------------
  // The actual table

  /** The specification table of the tuner meets everything the results above ask of a table. */
  lemma SpecTableOk()
    ensures TableOk(SPECS)
  {
    forall i | 0 <= i < N ensures SpecOk(SPECS[i]) && IsClean(SPECS[i].name) {
      SpecsOk(i);
      NameClean(i);
    }
    forall i, j | 0 <= i < j < N ensures SPECS[i].name != SPECS[j].name {
      NamesDiffer(i, j);
    }
  }

  lemma NamesDiffer(i: nat, j: nat)
    requires i < j < N
    ensures SPECS[i].name != SPECS[j].name
  {
    NameLength(i);
    NameLength(j);
    if i >= KMIN {
      assert SPECS[KMIN].name[1] == 'm' && SPECS[KMIN].name[2] == 'i';
      assert SPECS[KMAX].name[1] == 'm' && SPECS[KMAX].name[2] == 'a';
      assert SPECS[N - 1].name[0] == 'p' && SPECS[KMIN].name[0] == 'k' && SPECS[KMAX].name[0] == 'k';
    }
  }

  lemma SpecsOk(i: nat)
    requires i < N
    ensures SpecOk(SPECS[i])
  {
  }

  /** All names but the last three differ in length. */
  lemma NameLength(i: nat)
    requires i < N
    ensures |SPECS[i].name| == [10, 7, 8, 24, 15, 12, 6, 21, 9, 19, 4, 4, 4][i]
  {
  }

  predicate IsNameChar(c: char) {
    'a' <= c <= 'z' || c == '_'
  }

  lemma NameClean(i: nat)
    requires i < N
    ensures IsClean(SPECS[i].name)
  {
    var name := SPECS[i].name;
    NameLength(i);
    forall k | 0 <= k < |name| ensures !IsSpace(name[k]) && name[k] != '=' {
      if i < 4 {
        FirstNames(i, k);
      } else if i < 8 {
        MiddleNames(i, k);
      } else {
        LastNames(i, k);
      }
      assert IsNameChar(name[k]);
    }
  }

  lemma FirstNames(i: nat, k: nat)
    requires i < 4 && k < |SPECS[i].name|
    ensures IsNameChar(SPECS[i].name[k])
  {
  }

  lemma MiddleNames(i: nat, k: nat)
    requires 4 <= i < 8 && k < |SPECS[i].name|
    ensures IsNameChar(SPECS[i].name[k])
  {
  }

  lemma LastNames(i: nat, k: nat)
    requires 8 <= i < N && k < |SPECS[i].name|
    ensures IsNameChar(SPECS[i].name[k])
  {
  }
}
