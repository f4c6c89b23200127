/** What one line of the REPL in src/main.c does to the two global tables and what it prints,
 *  as a pure function `Step` over a `Table` value. The class `Repl.Registry` runs the same
 *  commands in place on arrays and is proved against `Step` and `RunSpec`.
 *
 *  A line is taken as already split and scanned: `Command` holds the verb and the operands
 *  that `sscanf` read, `Malformed` a known verb whose operands did not scan, and `Blank` a line
 *  with no word at all. The text that `printf` writes is represented by an `Output` value.
 */
module Commands {
  import opened VectorMath

  /** MAX_VECTORS: one slot per letter A..Z. */
  const MaxVectors: nat := 26

  // ---------------------------------------------------------------------------
  // Vector names
  // ---------------------------------------------------------------------------

  /** `toupper` in the C locale: only the 26 lower-case ASCII letters change. */
  function ToUpper(c: char): (u: char)
    ensures 'a' <= c <= 'z' ==> 'A' <= u <= 'Z' && u as int - 'A' as int == c as int - 'a' as int
    ensures !('a' <= c <= 'z') ==> u == c
  {
    if 'a' <= c <= 'z' then (c as int - 'a' as int + 'A' as int) as char else c
  }

  /** `get_vector_index`: the slot of an upper-case letter, -1 for every other character. */
  function GetVectorIndex(name: char): (i: int)
    ensures -1 <= i < MaxVectors
    ensures i != -1 <==> 'A' <= name <= 'Z'
    ensures i != -1 ==> Letter(i) == name
  {
    if 'A' <= name <= 'Z' then name as int - 'A' as int else -1
  }

  /** The name of slot `i`, as `list` prints it: `'A' + i`. */
  function Letter(i: int): (c: char)
    requires 0 <= i < MaxVectors
    ensures 'A' <= c <= 'Z'
  {
    ('A' as int + i) as char
  }

  /** The slot an operand character addresses: every operand goes through `toupper` first. */
  function Slot(name: char): (i: int)
    ensures -1 <= i < MaxVectors
  {
    GetVectorIndex(ToUpper(name))
  }

  lemma LetterIndexRoundTrip(i: int)
    requires 0 <= i < MaxVectors
    ensures GetVectorIndex(Letter(i)) == i
  {
  }

  /** Exactly the 52 ASCII letters name a slot, and a letter and its lower-case form name the
   *  same one. */
  lemma SlotCaseInsensitive(c: char)
    ensures Slot(c) != -1 <==> 'A' <= c <= 'Z' || 'a' <= c <= 'z'
    ensures Slot(c) == Slot(ToUpper(c))
    ensures 'a' <= c <= 'z' ==> Slot(c) == c as int - 'a' as int
  {
  }

  // ---------------------------------------------------------------------------
  // State, commands and output
  // ---------------------------------------------------------------------------

  /** The globals `vectors[]` and `vector_defined[]`. */
  datatype Table = Table(vectors: seq<Vec>, defined: seq<bool>)

  ghost predicate Valid(t: Table) {
    |t.vectors| == MaxVectors && |t.defined| == MaxVectors
  }

  /** The zero-initialised globals: every vector (0, 0), every flag 0. */
  function Initial(): (t: Table)
    ensures Valid(t)
    ensures forall i :: 0 <= i < MaxVectors ==> !t.defined[i]
  {
    Table(seq(MaxVectors, _ => Zero), seq(MaxVectors, _ => false))
  }

  datatype Command =
    | Blank
    | Exit
    | Help
    | Create(name: char, x: real, y: real)
    | Add(a: char, b: char, res: char)
    | Sub(a: char, b: char, res: char)
    | Scale(name: char, scalar: real, res: char)
    | Norm(name: char)
    | Dot(a: char, b: char)
    | Angle(a: char, b: char)
    | Normalize(name: char, res: char)
    | Print(name: char)
    | List
    | Cross(a: char, b: char)
    | Project(a: char, b: char, res: char)
    | Rotate(name: char, degrees: real, res: char)
    | Distance(a: char, b: char)
    | Malformed(verb: string)
    | Unknown(word: string)

  /** The three error messages: create's "Invalid vector name. Use A-Z.", and "Invalid vector
   *  name or undefined vector." / "... vector(s)." for one and for two operands. */
  datatype Failure = BadName | BadOperand | BadOperands

  datatype Output =
    | Nothing
    | HelpText
    | Shown(name: char, v: Vec)
    | NormOf(name: char, norm: real)
    | DotOf(a: char, b: char, dot: real)
    | AngleOf(a: char, b: char, angle: AngleValue)
    | CrossOf(a: char, b: char, cross: real)
    | DistanceOf(a: char, b: char, distance: real)
    | Listing(entries: seq<(char, Vec)>, noneDefined: bool)
    | Error(failure: Failure)
    | Usage(verb: string)
    | UnknownCommand(word: string)

  // ---------------------------------------------------------------------------
  // One command
  // ---------------------------------------------------------------------------

  /** Slot `i` now holds `v` and is marked defined. */
  function Write(t: Table, i: int, v: Vec): Table
    requires Valid(t) && 0 <= i < MaxVectors
  {
    Table(t.vectors[i := v], t.defined[i := true])
  }

  /** A slot an operand may be read from: a valid name whose flag is set. */
  predicate Readable(t: Table, i: int)
    requires Valid(t) && -1 <= i < MaxVectors
  {
    i != -1 && t.defined[i]
  }

  /** The vector operation behind each writing command. */
  function BinaryResult(c: Command, u: Vec, w: Vec): Vec
    requires c.Add? || c.Sub? || c.Project?
  {
    match c
    case Add(_, _, _) => AdditionVector(u, w)
    case Sub(_, _, _) => SubtractVector(u, w)
    case Project(_, _, _) => ProjectVector(u, w)
  }

  function UnaryResult(lib: MathLib, c: Command, u: Vec): Vec
    requires c.Scale? || c.Normalize? || c.Rotate?
  {
    match c
    case Scale(_, k, _) => ScaleVector(u, k)
    case Normalize(_, _) => NormalizeVector(lib, u)
    case Rotate(_, degrees, _) => RotateVector(lib, u, degrees)
  }

  /** `add`, `sub`, `project`: both operands and the result name valid, both operands
   *  defined; the result is computed from the table before the write. */
  function StepBinary(t: Table, c: Command): (Table, Output)
    requires Valid(t)
    requires c.Add? || c.Sub? || c.Project?
  {
    var i, j, r := Slot(c.a), Slot(c.b), Slot(c.res);
    if Readable(t, i) && Readable(t, j) && r != -1 then
      var v := BinaryResult(c, t.vectors[i], t.vectors[j]);
      (Write(t, r, v), Shown(ToUpper(c.res), v))
    else
      (t, Error(BadOperands))
  }

  /** `scale`, `normalize`, `rotate`: the source valid and defined, the result name valid. */
  function StepUnary(lib: MathLib, t: Table, c: Command): (Table, Output)
    requires Valid(t)
    requires c.Scale? || c.Normalize? || c.Rotate?
  {
    var i, r := Slot(c.name), Slot(c.res);
    if Readable(t, i) && r != -1 then
      var v := UnaryResult(lib, c, t.vectors[i]);
      (Write(t, r, v), Shown(ToUpper(c.res), v))
    else
      (t, Error(BadOperand))
  }

  /** The `list` entries for slots `0 .. n-1`: each defined slot with its letter, in order. */
  function ListingUpTo(t: Table, n: int): seq<(char, Vec)>
    requires Valid(t) && 0 <= n <= MaxVectors
  {
    if n == 0 then []
    else if t.defined[n - 1] then ListingUpTo(t, n - 1) + [(Letter(n - 1), t.vectors[n - 1])]
    else ListingUpTo(t, n - 1)
  }

  predicate AnyDefined(t: Table)
    requires Valid(t)
  {
    exists i :: 0 <= i < MaxVectors && t.defined[i]
  }

  /** What one scanned line does: the new table and what is printed. */
  function Step(lib: MathLib, t: Table, c: Command): (Table, Output)
    requires Valid(t)
  {
    match c
    case Blank => (t, Nothing)
    case Exit => (t, Nothing)
    case Help => (t, HelpText)
    case Create(name, x, y) =>
      var i := Slot(name);
      if i != -1 then
        var v := CreateVector(x, y);
        (Write(t, i, v), Shown(ToUpper(name), v))
      else
        (t, Error(BadName))
    case Add(_, _, _) => StepBinary(t, c)
    case Sub(_, _, _) => StepBinary(t, c)
    case Project(_, _, _) => StepBinary(t, c)
    case Scale(_, _, _) => StepUnary(lib, t, c)
    case Normalize(_, _) => StepUnary(lib, t, c)
    case Rotate(_, _, _) => StepUnary(lib, t, c)
    case Norm(name) =>
      var i := Slot(name);
      if Readable(t, i) then (t, NormOf(ToUpper(name), NormVector(lib, t.vectors[i])))
      else (t, Error(BadOperand))
    case Print(name) =>
      var i := Slot(name);
      if Readable(t, i) then (t, Shown(ToUpper(name), t.vectors[i]))
      else (t, Error(BadOperand))
    case Dot(a, b) =>
      var i, j := Slot(a), Slot(b);
      if Readable(t, i) && Readable(t, j) then
        (t, DotOf(ToUpper(a), ToUpper(b), DotProduct(t.vectors[i], t.vectors[j])))
      else (t, Error(BadOperands))
    case Angle(a, b) =>
      var i, j := Slot(a), Slot(b);
      if Readable(t, i) && Readable(t, j) then
        (t, AngleOf(ToUpper(a), ToUpper(b), AngleBetween(lib, t.vectors[i], t.vectors[j])))
      else (t, Error(BadOperands))
    case Cross(a, b) =>
      var i, j := Slot(a), Slot(b);
      if Readable(t, i) && Readable(t, j) then
        (t, CrossOf(ToUpper(a), ToUpper(b), CrossProduct2D(t.vectors[i], t.vectors[j])))
      else (t, Error(BadOperands))
    case Distance(a, b) =>
      var i, j := Slot(a), Slot(b);
      if Readable(t, i) && Readable(t, j) then
        (t, DistanceOf(ToUpper(a), ToUpper(b), DistanceVector(lib, t.vectors[i], t.vectors[j])))
      else (t, Error(BadOperands))
    case List => (t, Listing(ListingUpTo(t, MaxVectors), !AnyDefined(t)))
    case Malformed(verb) => (t, Usage(verb))
    case Unknown(word) => (t, UnknownCommand(word))
  }

  /** The `while (1)` loop over the lines of the input: it stops at `exit` or at the end of the
   *  input and returns the final table and everything printed. */
  function RunSpec(lib: MathLib, t: Table, cmds: seq<Command>): (Table, seq<Output>)
    requires Valid(t)
    decreases |cmds|
  {
    if cmds == [] || cmds[0] == Exit then (t, [])
    else
      StepKeepsValid(lib, t, cmds[0]);
      var (t1, out) := Step(lib, t, cmds[0]);
      var (t2, outs) := RunSpec(lib, t1, cmds[1..]);
      (t2, [out] + outs)
  }

  // ---------------------------------------------------------------------------
  // Which slot a command writes
  // ---------------------------------------------------------------------------

  predicate Writes(c: Command) {
    c.Create? || c.Add? || c.Sub? || c.Project? || c.Scale? || c.Normalize? || c.Rotate?
  }

  /** The slot a writing command names as its destination (-1 when the name is invalid). */
  function Destination(c: Command): int
    requires Writes(c)
  {
    if c.Create? then Slot(c.name) else Slot(c.res)
  }

  // ---------------------------------------------------------------------------
  // Properties of one command
  // ---------------------------------------------------------------------------

  lemma StepKeepsValid(lib: MathLib, t: Table, c: Command)
    requires Valid(t)
    ensures Valid(Step(lib, t, c).0)
  {
  }

  /** No command clears a flag, and no command touches a slot other than its destination. */
  lemma StepFrame(lib: MathLib, t: Table, c: Command)
    requires Valid(t)
    ensures var t1 := Step(lib, t, c).0;
      Valid(t1) &&
      (forall i :: 0 <= i < MaxVectors && t.defined[i] ==> t1.defined[i]) &&
      (forall i :: 0 <= i < MaxVectors && (!Writes(c) || i != Destination(c)) ==>
         t1.vectors[i] == t.vectors[i] && t1.defined[i] == t.defined[i])
  {
  }

  /** Commands that only read (and help, blank lines, exit, usage and unknown-command lines)
   *  leave both tables as they were. */
  lemma ReadOnlyKeepsTable(lib: MathLib, t: Table, c: Command)
    requires Valid(t)
    requires !Writes(c)
    ensures Step(lib, t, c).0 == t
  {
  }

  /** An error, a usage message or an unknown command changes nothing. */
  lemma FailureKeepsTable(lib: MathLib, t: Table, c: Command)
    requires Valid(t)
    requires var out := Step(lib, t, c).1; out.Error? || out.Usage? || out.UnknownCommand?
    ensures Step(lib, t, c).0 == t
  {
  }

  /** A writing command succeeds exactly when its validation passes; then its destination holds
   *  the result, computed from the table before the write, and is marked defined. */
  lemma BinaryWriteIff(t: Table, c: Command)
    requires Valid(t)
    requires c.Add? || c.Sub? || c.Project?
    ensures var (t1, out) := StepBinary(t, c);
      var i, j, r := Slot(c.a), Slot(c.b), Slot(c.res);
      (out.Shown? <==> i != -1 && j != -1 && r != -1 && t.defined[i] && t.defined[j]) &&
      (out.Shown? ==> t1.defined[r] && t1.vectors[r] == BinaryResult(c, t.vectors[i], t.vectors[j])
                      && out == Shown(ToUpper(c.res), t1.vectors[r])) &&
      (!out.Shown? ==> t1 == t && out == Error(BadOperands))
  {
  }

  lemma UnaryWriteIff(lib: MathLib, t: Table, c: Command)
    requires Valid(t)
    requires c.Scale? || c.Normalize? || c.Rotate?
    ensures var (t1, out) := StepUnary(lib, t, c);
      var i, r := Slot(c.name), Slot(c.res);
      (out.Shown? <==> i != -1 && r != -1 && t.defined[i]) &&
      (out.Shown? ==> t1.defined[r] && t1.vectors[r] == UnaryResult(lib, c, t.vectors[i])
                      && out == Shown(ToUpper(c.res), t1.vectors[r])) &&
      (!out.Shown? ==> t1 == t && out == Error(BadOperand))
  {
  }

  /** `create` with a valid name stores exactly `(x, y)`; with an invalid one it prints the
   *  name error. */
  lemma CreateStores(lib: MathLib, t: Table, name: char, x: real, y: real)
    requires Valid(t)
    ensures var (t1, out) := Step(lib, t, Create(name, x, y));
      var i := Slot(name);
      (i != -1 ==> t1.vectors[i] == Vec(x, y) && t1.defined[i] && out == Shown(ToUpper(name), Vec(x, y))) &&
      (i == -1 ==> t1 == t && out == Error(BadName))
  {
  }

  /** `add A A A` doubles A: the operands are read before the destination is written. */
  lemma AddSelfDoubles(lib: MathLib, t: Table, name: char)
    requires Valid(t)
    requires Slot(name) != -1 && t.defined[Slot(name)]
    ensures Step(lib, t, Add(name, name, name)).0.vectors[Slot(name)]
         == ScaleVector(t.vectors[Slot(name)], 2.0)
  {
  }

  /** Every name in a command, passed through `toupper`. */
  function UpperNames(c: Command): Command {
    match c
    case Create(n, x, y) => Create(ToUpper(n), x, y)
    case Add(a, b, r) => Add(ToUpper(a), ToUpper(b), ToUpper(r))
    case Sub(a, b, r) => Sub(ToUpper(a), ToUpper(b), ToUpper(r))
    case Project(a, b, r) => Project(ToUpper(a), ToUpper(b), ToUpper(r))
    case Scale(n, k, r) => Scale(ToUpper(n), k, ToUpper(r))
    case Normalize(n, r) => Normalize(ToUpper(n), ToUpper(r))
    case Rotate(n, d, r) => Rotate(ToUpper(n), d, ToUpper(r))
    case Norm(n) => Norm(ToUpper(n))
    case Print(n) => Print(ToUpper(n))
    case Dot(a, b) => Dot(ToUpper(a), ToUpper(b))
    case Angle(a, b) => Angle(ToUpper(a), ToUpper(b))
    case Cross(a, b) => Cross(ToUpper(a), ToUpper(b))
    case Distance(a, b) => Distance(ToUpper(a), ToUpper(b))
    case _ => c
  }

  /** Names are case-insensitive: a command and its upper-cased form have the same effect and
   *  print the same text. */
  lemma StepCaseInsensitive(lib: MathLib, t: Table, c: Command)
    requires Valid(t)
    ensures Step(lib, t, c) == Step(lib, t, UpperNames(c))
  {
  }

  // ---------------------------------------------------------------------------
  // `list`
  // ---------------------------------------------------------------------------

  /** The entries for slots below `n` are exactly the defined ones, each with its own letter
   *  and vector. */
  lemma {:induction false} ListingExact(t: Table, n: int)
    requires Valid(t) && 0 <= n <= MaxVectors
    ensures forall e :: e in ListingUpTo(t, n) <==>
      exists i :: 0 <= i < n && t.defined[i] && e == (Letter(i), t.vectors[i])
  {
    if n > 0 {
      ListingExact(t, n - 1);
    }
  }

  /** The entries come in slot order, so in alphabetical order of their names. */
  lemma {:induction false} ListingOrdered(t: Table, n: int)
    requires Valid(t) && 0 <= n <= MaxVectors
    ensures forall p, q :: 0 <= p < q < |ListingUpTo(t, n)| ==>
      ListingUpTo(t, n)[p].0 < ListingUpTo(t, n)[q].0
    ensures forall p :: 0 <= p < |ListingUpTo(t, n)| ==> ListingUpTo(t, n)[p].0 < ('A' as int + n) as char
  {
    if n > 0 {
      ListingOrdered(t, n - 1);
    }
  }

  /** The entries for slots below `n` are empty exactly when none of those slots is defined. */
  lemma {:induction false} ListingEmptyIff(t: Table, n: int)
    requires Valid(t) && 0 <= n <= MaxVectors
    ensures ListingUpTo(t, n) == [] <==> forall i :: 0 <= i < n ==> !t.defined[i]
  {
    if n > 0 {
      ListingEmptyIff(t, n - 1);
    }
  }

  /** "No vectors defined." is printed exactly when no flag is set, and exactly when nothing
   *  is listed. */
  lemma ListEmptyIff(lib: MathLib, t: Table)
    requires Valid(t)
    ensures var out := Step(lib, t, List).1;
      out.noneDefined <==> (forall i :: 0 <= i < MaxVectors ==> !t.defined[i])
    ensures var out := Step(lib, t, List).1;
      out.noneDefined <==> out.entries == []
  {
    ListingEmptyIff(t, MaxVectors);
  }

  // ---------------------------------------------------------------------------
  // Whole sessions
  // ---------------------------------------------------------------------------

  /** Over a whole session a defined vector stays defined. */
  lemma {:induction false} RunFlagsMonotone(lib: MathLib, t: Table, cmds: seq<Command>)
    requires Valid(t)
    ensures var t1 := RunSpec(lib, t, cmds).0;
      Valid(t1) && forall i :: 0 <= i < MaxVectors && t.defined[i] ==> t1.defined[i]
    decreases |cmds|
  {
    if cmds != [] && cmds[0] != Exit {
      StepFrame(lib, t, cmds[0]);
      RunFlagsMonotone(lib, Step(lib, t, cmds[0]).0, cmds[1..]);
    }
  }

  /** Everything after `exit` is ignored. */
  lemma {:induction false} RunStopsAtExit(lib: MathLib, t: Table, before: seq<Command>, after: seq<Command>)
    requires Valid(t)
    requires Exit !in before
    ensures RunSpec(lib, t, before + [Exit] + after) == RunSpec(lib, t, before + [Exit])
    decreases |before|
  {
    if before != [] {
      StepKeepsValid(lib, t, before[0]);
      assert (before + [Exit] + after)[1..] == before[1..] + [Exit] + after;
      assert (before + [Exit])[1..] == before[1..] + [Exit];
      RunStopsAtExit(lib, Step(lib, t, before[0]).0, before[1..], after);
    }
  }

  /** One output per command read before `exit` or the end of the input. */
  lemma {:induction false} RunOutputCount(lib: MathLib, t: Table, cmds: seq<Command>)
    requires Valid(t)
    requires Exit !in cmds
    ensures |RunSpec(lib, t, cmds).1| == |cmds|
    decreases |cmds|
  {
    if cmds != [] {
      StepKeepsValid(lib, t, cmds[0]);
      RunOutputCount(lib, Step(lib, t, cmds[0]).0, cmds[1..]);
    }
  }
}
