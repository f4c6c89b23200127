# vector-c in Dafny

A model of the interactive 2D-vector calculator vector-c. The program keeps 26 named vector
slots, `A` to `Z`, in two global tables. The first, `vectors[]`, holds each slot's value. The
second, `vector_defined[]`, holds a flag saying whether the slot was ever written. The program
reads one command per line. Each command validates its vector names and operands, then writes
at most one slot or prints a value computed by the vector library of `src/vector.c`.

The project has three modules:

- `VectorMath` (`vector_math.dfy`) models `src/vector.c`. It has the library's operations as
  pure functions over `Vec(x, y)` with real components, and lemmas for their algebra: addition,
  scaling, dot and cross products, projection, norm, normalization, distance, angle and
  rotation.
- `Commands` (`commands.dfy`) gives the meaning of one command line of `src/main.c` as a pure
  function. `Step` maps a `Table` (the two globals as sequences) and a scanned `Command` to the
  new table and an `Output`. `RunSpec` does the same for a whole session, which ends at `exit`
  or at the end of the input. The lemmas here state the validation rules, which slot a command
  may write, how `list` behaves, and what holds over whole sessions.
- `Repl` (`repl.dfy`) runs the same commands in place. The class `Registry` owns the two
  globals as arrays, and each `main` branch is a method whose `modifies` clause names the arrays
  it may change:
  - `Create`;
  - `Binary` for `add`, `sub` and `project`;
  - `Unary` for `scale`, `normalize` and `rotate`;
  - `Norm`, `Print` and `Pair` (for `dot`, `angle`, `cross` and `distance`), which change
    nothing;
  - `List`, which keeps its `found` flag in a loop.

  `Execute` is the `if`/`else if` dispatch on the verb, and `Run` is the `while (1)` loop of
  `main`. Every method is proved against `Step`, and `Run` against `RunSpec`.

The C `float` becomes `real`. The functions of `<math.h>` (`sqrtf`, `acosf`, `cosf`, `sinf`)
and the constant `M_PI` become fields of a `MathLib` value that is passed in. Properties that
depend on them say so in their preconditions: `SqrtSound(lib)` means `sqrt` returns the
nonnegative root, and `UnitCircleAt` means `cos² + sin² = 1` at the given angle.

## Model

| member | source | states |
|---|---|---|
| VectorMath.CreateVector | src/vector.c:4-9 | the result has exactly the given components |
| VectorMath.AdditionCommutative | src/vector.c:11-16 | `a + b == b + a` |
| VectorMath.AdditionAssociative | src/vector.c:11-16 | `(a + b) + c == a + (b + c)` |
| VectorMath.AdditionIdentity | src/vector.c:11-16 | adding the zero vector changes nothing |
| VectorMath.SubtractionInvertsAddition | src/vector.c:11-23 | `(a + b) - b == a` and `(a - b) + b == a` |
| VectorMath.SubtractionAntisymmetric | src/vector.c:18-23 | `a - b` is `b - a` scaled by -1 |
| VectorMath.LinearCombinationIsSumOfScaled | src/vector.c:25-31 | `linearCombination(a, s, b, t)` equals `scale(a, s) + scale(b, t)` |
| VectorMath.ScaleComposes | src/vector.c:48-53 | scaling by `j` and then by `k` is scaling by `j * k` |
| VectorMath.ScaleByOneAndZero | src/vector.c:48-53 | scaling by 1 is the identity; scaling by 0 gives the zero vector |
| VectorMath.ScaleDistributes | src/vector.c:48-53 | scaling distributes over addition |
| VectorMath.DotSymmetric | src/vector.c:46 | `a . b == b . a` |
| VectorMath.DotBilinear | src/vector.c:46 | the dot product is linear in its first argument (scaling and addition) |
| VectorMath.DotSelfZeroIff | src/vector.c:46 | `v . v` is zero exactly for the zero vector |
| VectorMath.DotSelfPositive | src/vector.c:46 | `v . v` is nonnegative, and positive for every nonzero vector |
| VectorMath.CrossAntisymmetric | src/vector.c:72-74 | `a x b == -(b x a)` |
| VectorMath.CrossSelfZero | src/vector.c:72-74 | `v x v == 0` |
| VectorMath.CrossScaledSelf | src/vector.c:72-74 | a vector and any multiple of it have cross product 0 |
| VectorMath.CrossIsLeftComponent | src/vector.c:65-74 | the cross product is the component of `b` along the left normal of `a`, so it is positive exactly when `b` is to the left of `a`, as the doc comment says |
| VectorMath.CrossZeroIffCollinear | src/vector.c:65-74 | for a nonzero `a`, `a x b == 0` holds exactly when `b` lies on the line of `a` (its projection onto `a` is `b` itself) |
| VectorMath.NormalizeVector | src/vector.c:33-44 | the result is collinear with the input (cross product 0) |
| VectorMath.ProjectVector | src/vector.c:80-90 | the projection lies on the line of `b` (cross product with `b` is 0) |
| VectorMath.ProjectOntoZero | src/vector.c:84-86 | projecting onto the zero vector gives the zero vector |
| VectorMath.ProjectIsScaledB | src/vector.c:80-90 | for a nonzero `b`, `b . b` is nonzero and the projection is `b` scaled by `(a . b) / (b . b)` |
| VectorMath.ProjectResidualOrthogonal | src/vector.c:76-90 | the residual `a - project(a, b)` is orthogonal to `b`, for every `b` including zero |
| VectorMath.ProjectIdempotent | src/vector.c:80-90 | projecting a projection again onto `b` changes nothing |
| VectorMath.ProjectUnique | src/vector.c:76-90 | for a nonzero `b`, the projection is the only multiple of `b` whose residual is orthogonal to `b` |
| VectorMath.NormSquared | src/vector.c:61 | with a sound square root, the norm is nonnegative and squares to `v . v` |
| VectorMath.SqrtZeroIff | src/vector.c:61 | a sound square root is zero exactly at zero |
| VectorMath.NormZeroIff | src/vector.c:61 | with a sound square root, the norm is zero exactly for the zero vector |
| VectorMath.NormScale | src/vector.c:61 | the norm of `scale(v, k)` is `abs(k)` times the norm of `v` |
| VectorMath.NormOfSquaredLength | src/vector.c:61 | the norm depends only on `x*x + y*y` |
| VectorMath.NormalizeGuard | src/vector.c:33-44 | a zero norm gives the zero vector; any other norm gives `v` scaled by the norm's reciprocal |
| VectorMath.NormalizeZero | src/vector.c:37-39 | normalizing the zero vector gives the zero vector |
| VectorMath.NormalizeUnit | src/vector.c:33-44 | a nonzero vector normalizes to length 1, pointing the same way (positive dot product with the input) |
| VectorMath.NormalizeZeroIff | src/vector.c:33-44 | the result is the zero vector exactly when the input is |
| VectorMath.DistanceSymmetric | src/vector.c:111-114 | `distance(a, b) == distance(b, a)` |
| VectorMath.DistanceZeroIff | src/vector.c:111-114 | with a sound square root, the distance is zero exactly when `a == b` |
| VectorMath.DistanceTranslationInvariant | src/vector.c:111-114 | shifting both vectors by the same vector keeps their distance |
| VectorMath.AngleSymmetric | src/vector.c:55-59 | `angle(a, b) == angle(b, a)` |
| VectorMath.AngleNaNIffZeroInput | src/vector.c:55-59 | with a sound square root, the angle is NaN exactly when one input is the zero vector |
| VectorMath.RotateByZero | src/vector.c:97-106 | with `cos(0) = 1` and `sin(0) = 0`, rotating by 0 degrees is the identity |
| VectorMath.RotatePreservesLength | src/vector.c:97-106 | when `cos² + sin² = 1` at the angle, rotation keeps the squared length |
| VectorMath.RotateLinear | src/vector.c:97-106 | rotation commutes with scaling and with addition |
| VectorMath.RotateQuarterTurn | src/vector.c:92-106 | with `cos = 0` and `sin = 1` at 90 degrees, a quarter turn gives the left normal, so `v x rotate(v, 90) == v . v` (counter-clockwise) |
| Commands.ToUpper | src/main.c:67 | lower-case ASCII letters map to the upper-case letter at the same position; every other character is unchanged |
| Commands.GetVectorIndex | src/main.c:11-16 | the result is in `-1 .. 25`; it is not -1 exactly for `'A'..'Z'`, and then it is the letter's position (`Letter(i) == name`) |
| Commands.Letter | src/main.c:185-187 | slot `i` is printed as an upper-case letter |
| Commands.Slot | src/main.c:67 | an operand's slot after `toupper` is in `-1 .. 25` |
| Commands.LetterIndexRoundTrip | src/main.c:185-187 | the letter printed for slot `i` maps back to slot `i` |
| Commands.SlotCaseInsensitive | src/main.c:67 | exactly the 52 ASCII letters name a slot; a lower-case letter names the same slot as its upper-case form |
| Commands.Initial | src/main.c:7-9 | the initial table has 26 slots and none is defined |
| Commands.StepKeepsValid | src/main.c:60-250 | every command keeps both tables at 26 entries |
| Commands.StepFrame | src/main.c:60-250 | no command clears a defined flag; only the destination of a writing command can change |
| Commands.ReadOnlyKeepsTable | src/main.c:122-205 | norm, dot, angle, print, list, cross, distance, help, exit, usage and unknown commands leave both tables unchanged |
| Commands.FailureKeepsTable | src/main.c:60-250 | a command that prints an error, a usage message or "Unknown command" changes nothing |
| Commands.BinaryWriteIff | src/main.c:78-107 | `add`/`sub` (and `project`, main.c:206-220) succeed exactly when all three names are valid and both operands are defined. Then the result slot is defined and holds the operation applied to the pre-state operands, and that value is printed. Otherwise the table is unchanged and the two-operand error is printed |
| Commands.UnaryWriteIff | src/main.c:108-121 | `scale` (and `normalize` at main.c:157-170, `rotate` at main.c:221-234) succeeds exactly when both names are valid and the source is defined; the result name need not be defined. Then the result slot holds the operation's result; otherwise nothing changes and the one-operand error is printed |
| Commands.CreateStores | src/main.c:65-77 | a valid name stores exactly `(x, y)`, marks the slot defined and prints it; an invalid name prints the "Use A-Z" error and changes nothing |
| Commands.AddSelfDoubles | src/main.c:78-92 | `add A A A` on a defined `A` makes `A` twice its old value, because the operands are read before the write |
| Commands.StepCaseInsensitive | src/main.c:60-250 | a command and the same command with every name upper-cased give the same table and the same output |
| Commands.ListingExact | src/main.c:182-193 | the `list` entries are exactly the defined slots, each with its own letter and vector |
| Commands.ListingOrdered | src/main.c:185-190 | the entries come in strictly increasing letter order, A to Z |
| Commands.ListingEmptyIff | src/main.c:182-193 | no entries are listed exactly when no slot is defined |
| Commands.ListEmptyIff | src/main.c:182-193 | "No vectors defined." is printed exactly when no flag is set, and exactly when no entry is listed |
| Commands.RunFlagsMonotone | src/main.c:51-252 | over a whole session, a defined slot stays defined |
| Commands.RunStopsAtExit | src/main.c:60-62 | commands after `exit` have no effect and print nothing |
| Commands.RunOutputCount | src/main.c:51-55 | a session without `exit` runs every line, one output per line, until the end of the input |
| Repl.Registry.constructor | src/main.c:7-9 | fresh arrays whose table is the all-undefined initial table |
| Repl.Registry.Create | src/main.c:65-77 | the new arrays and the output are those `Step` gives for `create` on the old arrays |
| Repl.Registry.Binary | src/main.c:78-107 | writes `add`/`sub`/`project` in place exactly as `Step` does on the old arrays (main.c:206-220 for `project`) |
| Repl.Registry.Unary | src/main.c:108-121 | writes `scale`/`normalize`/`rotate` in place exactly as `Step` does (main.c:157-170, 221-234) |
| Repl.Registry.Norm | src/main.c:122-132 | prints the norm exactly when the name is valid and defined, otherwise the one-operand error; the arrays are not changed |
| Repl.Registry.Print | src/main.c:171-181 | prints the stored vector exactly when the name is valid and defined |
| Repl.Registry.Pair | src/main.c:133-156 | `dot`/`angle` (and `cross` at main.c:194-205, `distance` at main.c:235-246) print their value exactly when both names are valid and defined, otherwise the two-operand error |
| Repl.Registry.List | src/main.c:182-193 | the loop lists exactly the defined slots, with their letters and vectors, in order; `found` stays unset exactly when no flag is set |
| Repl.Registry.Execute | src/main.c:60-250 | the dispatch on the verb does what `Step` does |
| Repl.Registry.Run | src/main.c:51-252 | the loop leaves the arrays and the outputs that `RunSpec` gives, stopping at `exit` or the end of the input |

## Left out

- Reading lines (`fgets`, the 256-byte `line` buffer, stripping the newline) and scanning them
  (`sscanf`) are not modelled. A line enters the model as a `Command` that holds the verb and
  the operands already scanned. A known verb whose operands do not scan is `Malformed`, and a
  line with no word is `Blank`. A line longer than 255 bytes, which `fgets` splits in two, is
  not modelled.
- The text `printf` writes is an `Output` value: which message, which names, which numbers.
  Some fixed text is not modelled: the banner, the `> ` prompt, the `Defined vectors:` header,
  the help text, and the `%.2f` rounding.
- `cmd[50]` (main.c:44) can overflow when `sscanf("%s")` reads a first word of 50 or more
  characters. This memory-safety defect is not modelled: an unknown word of any length is
  `Unknown(word)`.
- `float` arithmetic is modelled as exact real arithmetic. IEEE rounding, overflow to infinity,
  underflow and NaN propagation are not modelled, so every algebraic identity above holds only
  approximately for the C program. One case in point: the zero guards of `normalizeVector` and
  `projectVector` compare a rounded float with 0, and a tiny nonzero vector can underflow to
  that 0.
- `sqrtf`, `acosf`, `cosf`, `sinf` and `M_PI` are parameters, not definitions. So there is no
  round trip for rotation (rotating by `d` and then by `-d`) and no property of the angle's
  value beyond symmetry and when it is NaN.
- `VectorMath.AngleBetween` yields NaN only when the product of the two norms is exactly 0. The
  code has no guard there and prints whatever `acosf` returns. The model follows the code and
  does not turn NaN into an error. A quotient pushed outside `[-1, 1]` by rounding also makes
  `acosf` return NaN; that case is not modelled.
- `toupper` is the C locale's. Characters are Dafny `char`s, not signed C `char`s.
- The end of the input is the end of the `Command` sequence given to `Run`. The process exit
  status is not modelled.
- `include/vector.h` is not part of this model, apart from the `Vector2D` struct, which is
  `VectorMath.Vec`.
