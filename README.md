# Calculation records: factory and evaluators

A Dafny model of the calculation records of a small arithmetic CRUD backend.
The model covers `app/models/calculation.py`:

- the factory `Calculation.create`, which lower-cases a type name and looks it
  up in a table of four operations: addition, subtraction, multiplication and
  division;
- `get_result` for the abstract base and for each of the four subclasses.

Modules:

- `Folds` (`folds.dfy`): the left-to-right sum and product of a list of
  numbers, with their algebra.
- `Text` (`text.dfy`): lower-casing of type names.
- `Calculations` (`calculations.dfy`): the data model, the factory, the
  reference definition `Outcome` and the evaluators.

Data model:

- A record is the value `Calculation(kind, userId, inputs)`.
- `kind` is the polymorphic type: `Base` (identity `"calculation"`) or one of
  the four operations, each identified by its lower-case name.
- `inputs` is the stored JSON value. It is either `List(values)` or
  `NotAList`, which is what the subclasses' `isinstance(self.inputs, list)`
  tests distinguish.
- Numbers are exact `real`s.
- Python's exceptions become `Failure(ValueError(message))` and
  `Failure(NotImplementedError)`. The messages are the source's own strings.

`Outcome(kind, inputs)` is the reference definition of `get_result`. It gives
each result in closed form:

- addition: the sum;
- subtraction: the first input minus the sum of the rest;
- multiplication: the product;
- division: the first input divided by the product of the rest.

Each result sits behind the guard its subclass checks.

Three subclasses compute their result in a loop that updates an accumulator.
These are the methods `Subtract`, `Multiply` and `Divide`. `Divide` leaves
the loop early at the first zero divisor. Each method is proved equal to
`Outcome`. `GetResult` dispatches on the kind, as Python's method overriding
does.

The record is an immutable value. `GetResult` receives it by value and
returns only a result, so evaluating a record cannot change its kind, its
user or its inputs.

## Model

| member | source | states |
|---|---|---|
| `Calculations.Identity` | app/models/calculation.py:28-98 | the polymorphic identities of the base and the four subclasses ("calculation", "addition", "subtraction", "multiplication", "division", at lines 28, 65, 74, 86 and 98) are all written in lower case, so the lower-cased name in `create` can match them |
| `Calculations.Lookup` | app/models/calculation.py:37-44 | the table yields a concrete kind whose identity is exactly the name looked up, and yields nothing when no concrete kind has that identity, so the base identity "calculation" is not in it |
| `Calculations.Create` | app/models/calculation.py:33-48 | succeeds exactly when the lower-case form of the type name is the identity of one of the four concrete kinds; on success the record has that kind and carries the given user id and inputs unchanged; otherwise the error is ValueError("Unsupported calculation type: " followed by the name as given) |
| `Calculations.CreateIgnoresCase` | app/models/calculation.py:44-48 | two type names that differ only in letter case are both accepted or both refused, and when accepted they create the same record |
| `Calculations.CreateByIdentity` | app/models/calculation.py:37-48 | every spelling of a concrete kind's name, in any letter case, creates a record of that kind with the given user id and inputs |
| `Calculations.CreateRefusesBase` | app/models/calculation.py:26-46 | the base identity "calculation", in any letter case, is refused with the unsupported-type error |
| `Text.LowerChar` | app/models/calculation.py:44 | the lower-case form of a character is never an upper-case letter; an upper-case letter becomes a different character at the fixed distance from 'A' to 'a'; any other character is unchanged |
| `Text.Lower` | app/models/calculation.py:44 | the lower-case form contains no upper-case letter and equals the name up to letter case |
| `Text.LowerUnique` | app/models/calculation.py:44 | no other string is both lower-case and equal to the name up to letter case |
| `Text.LowerFixesLower` | app/models/calculation.py:44 | the lower-case form is lower-case, and a string is its own lower-case form exactly when it has no upper-case letter |
| `Text.LowerIdempotent` | app/models/calculation.py:44 | lower-casing twice gives the same string as lower-casing once |
| `Calculations.Outcome` | app/models/calculation.py:50-108 | the reference result of `get_result`: it fails exactly when the record is the base, or its inputs are not a list, or it is a subtraction or division with fewer than two inputs, or it is a division with a zero among the inputs after the first; only the base fails with NotImplementedError |
| `Calculations.GetResult` | app/models/calculation.py:50-108 | for every record the result equals `Outcome`: NotImplementedError for the base; for addition, the sum of a list and ValueError("Inputs must be a list of numbers.") otherwise; for the other kinds, the result of `Subtract`, `Multiply` or `Divide` |
| `Calculations.Subtract` | app/models/calculation.py:76-82 | the loop that subtracts each later input in turn returns the first input minus the sum of the rest; fewer than two inputs, or inputs that are not a list, give ValueError("Inputs must be a list with at least two numbers.") |
| `Calculations.Multiply` | app/models/calculation.py:88-94 | the loop that multiplies 1 by each input in turn returns the product of the inputs; inputs that are not a list give ValueError("Inputs must be a list of numbers.") |
| `Calculations.Divide` | app/models/calculation.py:100-108 | the loop that divides the first input by each later input in turn returns the first input divided by the product of the rest; it returns ValueError("Cannot divide by zero.") exactly when that product is zero; fewer than two inputs, or inputs that are not a list, give the at-least-two-numbers error |
| `Calculations.DivisionZeroTest` | app/models/calculation.py:101-107 | with at least two inputs, division fails with "Cannot divide by zero." exactly when some input after the first is zero; a zero first input with nonzero divisors gives 0 |
| `Calculations.EdgeCases` | app/models/calculation.py:50-108 | the sum of no inputs is 0 and their product is 1; subtraction and division refuse a single input; the base refuses every input, list or not, with NotImplementedError |
| `Calculations.SubtractionUndoneByAddition` | app/models/calculation.py:70-82 | adding the later inputs to a subtraction's result gives back its first input |
| `Calculations.DivisionUndoneByMultiplication` | app/models/calculation.py:91-107 | when division succeeds, multiplying its result by the later inputs gives back its first input |
| `Folds.Sum` | app/models/calculation.py:70 | the built-in `sum`, adding each input in turn to 0: the sum of no inputs is 0, and a sum of terms of one sign has that sign |
| `Folds.Product` | app/models/calculation.py:91-94 | the product starting from 1: the product of no inputs is 1, and a product is zero exactly when one of its factors is zero, which is why the in-loop zero test at line 105 and the closed form agree |
| `Folds.SumConcat` | app/models/calculation.py:70 | the left-to-right sum of two lists laid end to end is the sum of their sums |
| `Folds.ProductConcat` | app/models/calculation.py:91-94 | the left-to-right product of two lists laid end to end is the product of their products |

## Left out

- ORM mapping: column types, generated UUID primary keys, the `created_at`/`updated_at` timestamps, the relationship to users and the polymorphic mapper arguments (app/models/calculation.py:14-30). These are persistence details. Only the polymorphic identities are kept, as `Identity`.
- `__repr__` (app/models/calculation.py:58-59): string formatting only.
- Aliasing of the inputs list: `create` stores the caller's own list object in the new record (app/models/calculation.py:48), so a later change to that list by the caller is seen by `get_result`. Records here hold the list as a value, so the model does not show that sharing. No property above depends on it.
- Floating point: the model uses exact reals. It does not cover IEEE rounding, infinities, NaN or `-0.0`. Python's integer results (`sum([])` is `0`, an empty product is `1`) appear as the reals 0 and 1.
- Non-numeric list elements: the `TypeError` Python raises on adding or dividing by something that is not a number is not modelled. A list is always a list of numbers here.
- Text.Lower: lower-cases the ASCII letters A-Z only, where `str.lower` folds all of Unicode. The lookup outcome is the same as long as no other character lower-cases to a letter of the four names. The only such characters are the Kelvin sign, which lower-cases to `k`, and dotted capital I, which lower-cases to `i` followed by a combining dot. None of the four names contains `k`, and the combining dot never matches. The unsupported-type message shows the name as given, which is the same in both cases.
- The request and response schemas (app/schemas/calculation.py) are not part of this model. Their validation happens inside the schema library. Their type field accepts the four names in lower case only, while `create` accepts any letter case.
- The test fixtures (tests/conftest.py) are not part of this model: database setup and teardown, server and browser processes, fake users.
