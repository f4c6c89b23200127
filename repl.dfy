/** The REPL of src/main.c run in place: the globals `vectors[]` and `vector_defined[]` become
 *  two arrays owned by a `Registry`, each command a method that validates its operands and then
 *  writes at most one slot. Every method is proved against `Commands.Step`, and the session loop
 *  against `Commands.RunSpec`.
 */
module Repl {
  import opened VectorMath
  import opened Commands

  class Registry {
    /** sqrtf, acosf, cosf, sinf and M_PI as the C library provides them. */
    const lib: MathLib
    /** `vectors[MAX_VECTORS]`. */
    const vectors: array<Vec>
    /** `vector_defined[MAX_VECTORS]`, with `true` for 1. */
    const defined: array<bool>

    ghost predicate Valid()
      reads this
    {
      vectors.Length == MaxVectors && defined.Length == MaxVectors
    }

    /** The two arrays as a `Commands.Table` value. */
    function Snapshot(): (t: Table)
      requires Valid()
      reads this, vectors, defined
      ensures Commands.Valid(t)
      ensures forall i :: 0 <= i < MaxVectors ==> t.vectors[i] == vectors[i] && t.defined[i] == defined[i]
    {
      Table(vectors[..], defined[..])
    }

    /** Program start: all 26 vectors zero and undefined. */
    constructor(lib: MathLib)
      ensures Valid()
      ensures this.lib == lib && fresh(vectors) && fresh(defined)
      ensures Snapshot() == Initial()
    {
      this.lib := lib;
      vectors := new Vec[MaxVectors](_ => Zero);
      defined := new bool[MaxVectors](_ => false);
      new;
      assert vectors[..] == Initial().vectors;
      assert defined[..] == Initial().defined;
    }

    /** `create <name> <x> <y>`. */
    method Create(name: char, x: real, y: real) returns (out: Output)
      requires Valid()
      modifies vectors, defined
      ensures Valid()
      ensures (Snapshot(), out) == Step(lib, old(Snapshot()), Command.Create(name, x, y))
    {
      var idx := GetVectorIndex(ToUpper(name));
      if idx != -1 {
        vectors[idx] := CreateVector(x, y);
        defined[idx] := true;
        out := Shown(ToUpper(name), vectors[idx]);
      } else {
        out := Error(BadName);
      }
    }

    /** `add`, `sub` and `project`: both operands are read before the result slot is written. */
    method Binary(c: Command) returns (out: Output)
      requires Valid()
      requires c.Add? || c.Sub? || c.Project?
      modifies vectors, defined
      ensures Valid()
      ensures (Snapshot(), out) == Step(lib, old(Snapshot()), c)
    {
      var idx1 := GetVectorIndex(ToUpper(c.a));
      var idx2 := GetVectorIndex(ToUpper(c.b));
      var resIdx := GetVectorIndex(ToUpper(c.res));
      if idx1 != -1 && idx2 != -1 && resIdx != -1 && defined[idx1] && defined[idx2] {
        vectors[resIdx] := BinaryResult(c, vectors[idx1], vectors[idx2]);
        defined[resIdx] := true;
        out := Shown(ToUpper(c.res), vectors[resIdx]);
      } else {
        out := Error(BadOperands);
      }
    }

    /** `scale`, `normalize` and `rotate`: only the source has to be defined. */
    method Unary(c: Command) returns (out: Output)
      requires Valid()
      requires c.Scale? || c.Normalize? || c.Rotate?
      modifies vectors, defined
      ensures Valid()
      ensures (Snapshot(), out) == Step(lib, old(Snapshot()), c)
    {
      var idx1 := GetVectorIndex(ToUpper(c.name));
      var resIdx := GetVectorIndex(ToUpper(c.res));
      if idx1 != -1 && resIdx != -1 && defined[idx1] {
        vectors[resIdx] := UnaryResult(lib, c, vectors[idx1]);
        defined[resIdx] := true;
        out := Shown(ToUpper(c.res), vectors[resIdx]);
      } else {
        out := Error(BadOperand);
      }
    }

    /** `norm <name>`. */
    method Norm(name: char) returns (out: Output)
      requires Valid()
      ensures out == Step(lib, Snapshot(), Command.Norm(name)).1
      ensures out.NormOf? <==> Slot(name) != -1 && defined[Slot(name)]
    {
      var idx1 := GetVectorIndex(ToUpper(name));
      if idx1 != -1 && defined[idx1] {
        out := NormOf(ToUpper(name), NormVector(lib, vectors[idx1]));
      } else {
        out := Error(BadOperand);
      }
    }

    /** `print <name>`. */
    method Print(name: char) returns (out: Output)
      requires Valid()
      ensures out == Step(lib, Snapshot(), Command.Print(name)).1
      ensures out.Shown? <==> Slot(name) != -1 && defined[Slot(name)]
      ensures out.Shown? ==> out.v == vectors[Slot(name)]
    {
      var idx1 := GetVectorIndex(ToUpper(name));
      if idx1 != -1 && defined[idx1] {
        out := Shown(ToUpper(name), vectors[idx1]);
      } else {
        out := Error(BadOperand);
      }
    }

    /** `dot`, `angle`, `cross` and `distance`: print a value computed from two defined
     *  vectors. */
    method Pair(c: Command) returns (out: Output)
      requires Valid()
      requires c.Dot? || c.Angle? || c.Cross? || c.Distance?
      ensures out == Step(lib, Snapshot(), c).1
      ensures !out.Error? <==> Slot(c.a) != -1 && Slot(c.b) != -1 && defined[Slot(c.a)] && defined[Slot(c.b)]
    {
      var idx1 := GetVectorIndex(ToUpper(c.a));
      var idx2 := GetVectorIndex(ToUpper(c.b));
      if idx1 != -1 && idx2 != -1 && defined[idx1] && defined[idx2] {
        var u, w := vectors[idx1], vectors[idx2];
        var n1, n2 := ToUpper(c.a), ToUpper(c.b);
        match c
        case Dot(_, _) => out := DotOf(n1, n2, DotProduct(u, w));
        case Angle(_, _) => out := AngleOf(n1, n2, AngleBetween(lib, u, w));
        case Cross(_, _) => out := CrossOf(n1, n2, CrossProduct2D(u, w));
        case Distance(_, _) => out := DistanceOf(n1, n2, DistanceVector(lib, u, w));
      } else {
        out := Error(BadOperands);
      }
    }

    /** `list`: walks the slots A..Z, collects every defined one and sets `found` on the first;
     *  "No vectors defined." follows when `found` is still unset. */
    method List() returns (out: Output)
      requires Valid()
      ensures out == Step(lib, Snapshot(), Command.List).1
      ensures out.Listing?
      ensures forall e :: e in out.entries <==>
        exists i :: 0 <= i < MaxVectors && defined[i] && e == (Letter(i), vectors[i])
      ensures out.noneDefined <==> forall i :: 0 <= i < MaxVectors ==> !defined[i]
    {
      var entries: seq<(char, Vec)> := [];
      var found := false;
      var i := 0;
      while i < MaxVectors
        invariant 0 <= i <= MaxVectors
        invariant entries == ListingUpTo(Snapshot(), i)
        invariant found <==> exists j :: 0 <= j < i && defined[j]
      {
        if defined[i] {
          entries := entries + [(Letter(i), vectors[i])];
          found := true;
        }
        i := i + 1;
      }
      out := Listing(entries, !found);
      ListingExact(Snapshot(), MaxVectors);
    }

    /** One scanned line: the branch of the `if`/`else if` chain in `main` that its verb picks. */
    method Execute(c: Command) returns (out: Output)
      requires Valid()
      modifies vectors, defined
      ensures Valid()
      ensures (Snapshot(), out) == Step(lib, old(Snapshot()), c)
    {
      match c
      case Blank => out := Nothing;
      case Exit => out := Nothing;
      case Help => out := HelpText;
      case Create(name, x, y) => out := Create(name, x, y);
      case Add(_, _, _) => out := Binary(c);
      case Sub(_, _, _) => out := Binary(c);
      case Project(_, _, _) => out := Binary(c);
      case Scale(_, _, _) => out := Unary(c);
      case Normalize(_, _) => out := Unary(c);
      case Rotate(_, _, _) => out := Unary(c);
      case Norm(name) => out := Norm(name);
      case Print(name) => out := Print(name);
      case Dot(_, _) => out := Pair(c);
      case Angle(_, _) => out := Pair(c);
      case Cross(_, _) => out := Pair(c);
      case Distance(_, _) => out := Pair(c);
      case List => out := List();
      case Malformed(verb) => out := Usage(verb);
      case Unknown(word) => out := UnknownCommand(word);
    }

    /** The `while (1)` loop of `main`: one command per input line, until `exit` or the end of
     *  the input. */
    method Run(cmds: seq<Command>) returns (outs: seq<Output>)
      requires Valid()
      modifies vectors, defined
      ensures Valid()
      ensures (Snapshot(), outs) == RunSpec(lib, old(Snapshot()), cmds)
    {
      outs := [];
      var i := 0;
      assert cmds[i..] == cmds;
      assert outs + RunSpec(lib, Snapshot(), cmds).1 == RunSpec(lib, Snapshot(), cmds).1;
      while i < |cmds|
        invariant 0 <= i <= |cmds|
        invariant Valid()
        invariant RunSpec(lib, old(Snapshot()), cmds)
               == (RunSpec(lib, Snapshot(), cmds[i..]).0, outs + RunSpec(lib, Snapshot(), cmds[i..]).1)
      {
        if cmds[i] == Exit {
          break;
        }
        var out := Execute(cmds[i]);
        assert cmds[i..][1..] == cmds[i + 1..];
        assert outs + ([out] + RunSpec(lib, Snapshot(), cmds[i + 1..]).1)
            == (outs + [out]) + RunSpec(lib, Snapshot(), cmds[i + 1..]).1;
        outs := outs + [out];
        i := i + 1;
      }
      assert RunSpec(lib, Snapshot(), cmds[i..]).1 == [];
      assert outs + [] == outs;
    }
  }
}
