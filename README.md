# Main from clause and Take result operator of a LINQ query model

This project models two pieces of re-linq's query model in Dafny.

- `MainFromClause` is the first `from` of a query (`from s in Students`). It carries an item
  name, an item type and a source expression. Its constructor checks its arguments. `Accept`
  dispatches to a visitor. `Clone` builds a fresh clause with the same values. Before the
  clause's join clauses are cloned, `Clone` registers the original in the clone context's
  clause mapping, as a reference to the clone.
- `TakeResultOperator` keeps the first `Count` items of a query result. `Count` is mutable.
  The execution strategy is the collection strategy. In memory it behaves as `Enumerable.Take`.
  `Clone` copies the current `Count`, and `ToString` renders `Take(<count>)`.

Files:

- `wrappers.dfy`: `Option`, `Result` and `Outcome`. A C# `null` becomes `None`, or a nullable
  class type (`T?`). A thrown exception becomes a `Failure` or `Fail`.
- `utilities.dfy`: the argument checks of `ArgumentUtility` as `ArgumentError` results, and
  C#'s `int` as the `Int32` newtype.
- `decimal.dfy`: decimal rendering of an integer, and the parser that inverts it.
- `clauses.dfy`: `MainFromClause`, `CloneContext` with its clause mapping, `JoinClause`, and a
  `RecordingVisitor` that logs the calls it receives.
- `result_operators.dfy`: `Take` over a sequence, its lemmas, and `TakeResultOperator`.

Modelling choices:

- `System.Type` and `System.Linq.Expressions.Expression` are opaque values compared by
  equality (`ClrType`, `Expression.Foreign`). The one expression kind the model looks into is
  the query source reference that `Clone` creates.
- The clone context's clause mapping is a `map<object, Expression>` field. `Clone` extends it.
- Join-clause cloning is an abstract step. Its contract says only what the main clause relies
  on. The copy's expressions are seen through the mapping as it stands at the call. The
  mapping may gain entries there, but keeps every entry it had.
- The visitor is a class whose only state is the list of calls it has received.
- `Count` is an `Int32`. `Take` itself accepts any `int`.

## Model

| member | source | states |
|---|---|---|
| `Clauses.CheckConstructorArguments` | Remotion/Data/Linq/Clauses/MainFromClause.cs:44-48 | Construction succeeds exactly when the item name is present and non-empty and the type and expression are present. It then keeps the three values unchanged. Otherwise it fails with the first failing check, in argument order: null name, empty name, null type, null expression. |
| `Clauses.MainFromClause.Create` | Remotion/Data/Linq/Clauses/MainFromClause.cs:44-50 | On arguments that may be null: fails with the error the checks give, or returns a fresh valid clause whose values are the arguments and which has no join clauses. |
| `Clauses.MainFromClause.constructor` | Remotion/Data/Linq/Clauses/MainFromClause.cs:44-50 | From a non-empty name and a type and expression, builds a valid clause that stores them unchanged and has no join clauses. |
| `Clauses.MainFromClause.Accept` | Remotion/Data/Linq/Clauses/MainFromClause.cs:57-63 | A null visitor fails first, then a null query model. Either failure leaves the visitor's log alone. Otherwise the visitor receives exactly one call, `VisitMainFromClause(this, queryModel)`, appended to its log. |
| `Clauses.MainFromClause.Clone` | Remotion/Data/Linq/Clauses/MainFromClause.cs:70-78 | A null context fails. Otherwise it returns a fresh clause, distinct from the original, with the same name, type and expression. Afterwards the mapping sends the original to a reference to the clone and keeps every earlier entry. Each join clause is cloned, in order, under a mapping (`seen[i]`) that already holds this entry, so a join that referred to the original now refers to the clone. The original is unchanged. |
| `Clauses.MainFromClause.AddClonedJoinClauses` | Remotion/Data/Linq/Clauses/MainFromClause.cs:76 | Appends, in order, one fresh clone of each given join clause. Each is cloned under the mapping the context holds at that moment, which keeps every entry present at the start. The existing join clauses are kept. |
| `Clauses.CloneContext.AddMapping` | Remotion/Data/Linq/Clauses/MainFromClause.cs:75 | For a query source not yet mapped, adds the query source ↦ replacement entry and changes nothing else in the mapping. |
| `Clauses.JoinClause.Clone` | Remotion/Data/Linq/Clauses/MainFromClause.cs:76 | A fresh join clause with the same name and type. Its expressions are seen through the context's mapping at the time of the call. The mapping may gain entries but keeps every entry it had. |
| `Clauses.RegistrationRedirectsReferences` | Remotion/Data/Linq/Clauses/MainFromClause.cs:75-76 | A reference to the original, seen before registration, stays a reference to the original. Seen through any mapping that keeps the registration, it becomes a reference to the clone. So the registration must come first; that `Clone` does register first is its own contract. |
| `ResultOperators.TakeResultOperator.constructor` | Remotion/Data/Linq/Clauses/ResultOperators/TakeResultOperator.cs:28-32 | Stores the given count. The strategy is the collection strategy. |
| `ResultOperators.TakeResultOperator.SetCount` | Remotion/Data/Linq/Clauses/ResultOperators/TakeResultOperator.cs:26 | After setting, `Count` is the new value. Nothing else changes. |
| `ResultOperators.TakeResultOperator.Clone` | Remotion/Data/Linq/Clauses/ResultOperators/TakeResultOperator.cs:34-37 | Returns a fresh operator whose `Count` is the current `Count` and whose strategy is the same. It accepts any context, null included, and modifies nothing. |
| `ResultOperators.TakeResultOperator.ExecuteInMemory` | Remotion/Data/Linq/Clauses/ResultOperators/TakeResultOperator.cs:39-43 | Null items, and only null items, fail with an argument error for `items`. Otherwise the result is the prefix of the items whose length is max(0, min(Count, number of items)), using the current `Count`. |
| `ResultOperators.TakeResultOperator.ToString` | Remotion/Data/Linq/Clauses/ResultOperators/TakeResultOperator.cs:45-48 | The text is exactly `Take(` + the decimal rendering of the current `Count` + `)`. The integer between the parentheses parses back to `Count`. |
| `ResultOperators.ToStringDistinguishesCounts` | Remotion/Data/Linq/Clauses/ResultOperators/TakeResultOperator.cs:47 | Two operators render the same text exactly when their counts are equal. |
| `ResultOperators.TakeIsClampedPrefix` | Remotion/Data/Linq/Clauses/ResultOperators/TakeResultOperator.cs:42 | `Take(items, n)` is `items[..max(0, min(n, len(items)))]` for every sequence and every integer. |
| `ResultOperators.TakeLengthAndPrefix` | Remotion/Data/Linq/Clauses/ResultOperators/TakeResultOperator.cs:42 | The result has length max(0, min(n, len(items))) and is a prefix of the items. |
| `ResultOperators.TakeWithinBounds` | Remotion/Data/Linq/Clauses/ResultOperators/TakeResultOperator.cs:42 | For 0 <= n <= len(items) the result is exactly the first n items. |
| `ResultOperators.TakeBeyondLength` | Remotion/Data/Linq/Clauses/ResultOperators/TakeResultOperator.cs:42 | For n >= len(items) the result is the whole sequence. |
| `ResultOperators.TakeNonPositive` | Remotion/Data/Linq/Clauses/ResultOperators/TakeResultOperator.cs:42 | For n <= 0 the result is empty, and it is not an error. |
| `ResultOperators.TakeOfTake` | Remotion/Data/Linq/Clauses/ResultOperators/TakeResultOperator.cs:42 | Take(n) applied after Take(m) equals Take(min(m, n)). |
| `Decimal.FromIntRoundTrip` | Remotion/Data/Linq/Clauses/ResultOperators/TakeResultOperator.cs:47 | Parsing the decimal rendering of any integer gives that integer back. |
| `Decimal.FromIntCanonical` | Remotion/Data/Linq/Clauses/ResultOperators/TakeResultOperator.cs:47 | A rendering is `0` only for zero. A positive number has no leading zero. A negative number is `-` then digits without a leading zero, so `-0` never appears. |
| `Decimal.NatToStringCanonical` | Remotion/Data/Linq/Clauses/ResultOperators/TakeResultOperator.cs:47 | The digits of a natural number start with `0` exactly when the number is zero. |
| `Decimal.FromIntInjective` | Remotion/Data/Linq/Clauses/ResultOperators/TakeResultOperator.cs:47 | Two integers have the same rendering exactly when they are equal. |

## Left out

- Exception types: `ArgumentUtility`'s exceptions are `ArgumentError` values (`ArgumentNull`, `ArgumentEmpty`) naming the parameter. The type of exception object is not modelled.
- Clauses.CloneContext.AddMapping: `QuerySourceMapping.AddMapping` is not part of this model. What it does with a key that is already mapped is not stated. `AddMapping` and `Clauses.MainFromClause.Clone` require the key to be absent.
- Clauses.JoinClause.Clone: `JoinClause` and `FromClauseBase.AddClonedJoinClauses` are not part of this model. A join clause is a stand-in object with immutable fields. Its clone copies the name and type and rewrites each expression through the mapping, replacing only a top-level query source reference. Rewriting references nested deeper inside foreign expression trees is not modelled. Its contract lets it add entries to the mapping, but the stand-in body adds none; which entries the real join clone registers is not stated.
- Clauses.MainFromClause.Clone: it requires the clause to be valid (non-empty name). The constructor guarantees this for every clause built through it.
- The visitor's own behaviour: `IQueryModelVisitor` is an interface; only the log of the calls it receives is modelled.
- `QueryModel`'s contents: only its identity is used.
- Deferred evaluation: `ExecuteInMemory` works on a finite, materialised sequence, not a lazy `IEnumerable<T>`.
- ResultOperators.TakeResultOperator.Clone: that it does not read the clone context cannot be stated for a Dafny method. That it does not modify it follows from its empty `modifies` clause.
- Culture-specific formatting: `ToString` uses plain invariant decimal rendering, with a leading `-` for negative counts.
- The 32-bit range of `Count` is kept by the `Int32` newtype. `Take` accepts any `int`, so no wrap-around arises.
- The base classes `FromClauseBase`, `NonScalarResultOperatorBase` and `CollectionExecutionStrategy` are not part of this model. The strategy is an `ExecutionStrategy` value fixed at construction.
