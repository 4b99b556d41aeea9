# WriteableTuple, modelled in Dafny

PackageTuple provides mutable tuples `WriteableTuple<T1>` … `WriteableTuple<T1..T7>`
and an eight-slot `WriteableTuple<T1..T7,TRest>` whose `Rest` slot holds a further
tuple, so that chains of tuples stand for tuples of any length. Every tuple
implements the internal interface `ITupleInternal` (`Size`, `ToStringEnd`).
`ToString` renders `"(" + items joined by ", " + ")"`; `ToStringEnd` omits the
leading `"("` so that an enclosing eight-slot tuple can splice it in, and a whole
chain prints as one flat list. The static `WriteableTuple.Create` overloads build
the fitting arity; with eight values the eighth goes into a 1-tuple used as `Rest`.

The model has three modules:

- `Rendering` (rendering.dfy): the text of one component (`Show`: a null
  component, or a null result of its `ToString`, contributes the empty string),
  the `", "` join of components (`Join`), the error values, and lemmas about `Join`.
- `WriteableTuples` (tuple.dfy): the classes. `SmallTuple` stands for the seven
  fixed-arity classes (a constant `Size` of 1 to 7 and a sequence of that many
  items); `ExtendedTuple` stands for the eight-slot class (seven items and a
  `rest` of type `Link`). `Link` makes the runtime test `rest is ITupleInternal`
  explicit: a `SmallTuple`, an `ExtendedTuple`, some other non-null value (kept as
  the text its `ToString` contributes) or null. `Size`, `ToString` and
  `ToStringEnd` are functions on the objects that follow the C# bodies branch by
  branch; their contracts tie them to the flattened components of the chain
  (`Elements`). The setters are methods that say which slot changes.
- `Scenarios` (scenarios.dfy): client code over concrete tuples showing what the
  contracts let a caller conclude.

Where the code and its documentation differ, the model follows the code: the
documentation comments call these types structs with fields, but they are classes
with auto-properties, so a tuple used as `Rest` is shared, and setting an item of
it changes what the enclosing tuple prints (`Scenarios.NestedMutationReflected`).
The non-tuple branches of the eight-slot `ToString`, `ToStringEnd` and `Size` look
like dead code given the constructor's check, but the public `Rest` setter does
not repeat that check, so they are reachable whenever `TRest` admits a
non-tuple value, such as `object`, and are modelled (`Scenarios.RestBypassesCheck`).

## Model

| member | source | states |
|---|---|---|
| `Rendering.JoinAppend` | PackageTuple/Tuple.cs:689-692 | the seven items, `", "`, and the rest's components join to the join of all of them: splicing adds exactly one separator |
| `Rendering.JoinFreeOf` | PackageTuple/Tuple.cs:233-241 | a character absent from every component text and from the separator is absent from the joined text |
| `Rendering.Parenthesised` | PackageTuple/Tuple.cs:175-178 | in `"(" + s + ")"` with a parenthesis-free `s`, the only `(` is the first character and the only `)` the last |
| `WriteableTuples.SmallTuple.constructor` | PackageTuple/Tuple.cs:570-579 | an n-tuple (1 ≤ n ≤ 7) holds the n arguments in order and has `Size` n |
| `WriteableTuples.SmallTuple.ToString` | PackageTuple/Tuple.cs:589-592 | `ToString()` is `"(" + ToStringEnd()` |
| `WriteableTuples.SmallTuple.ToStringEnd` | PackageTuple/Tuple.cs:594-597 | the tail form ends with `")"`, preceded by the items joined by `", "` |
| `WriteableTuples.SmallTuple.SetItem` | PackageTuple/Tuple.cs:534-558 | setting `Item<n>` changes slot n only, `Size` stays the arity, and the next `ToString` shows the new value |
| `WriteableTuples.ExtendedTuple.constructor` | PackageTuple/Tuple.cs:664-671 | callable only with a tuple as `rest`, as after the check; all eight slots equal the arguments, and the new tuple's chain is well formed when its rest's is |
| `WriteableTuples.ExtendedTuple.New` | PackageTuple/Tuple.cs:657-672 | construction fails with `ArgumentException` exactly when `rest` is not a tuple (null included); otherwise a fresh tuple holds the arguments |
| `WriteableTuples.ExtendedTuple.Size` | PackageTuple/Tuple.cs:708-715 | `Size` (7 + `rest.Size` for a tuple rest, 8 otherwise) equals the number of flattened components of the chain |
| `WriteableTuples.ExtendedTuple.ToStringEnd` | PackageTuple/Tuple.cs:695-706 | the tail form is the flattened components joined by `", "` and one `")"`, or a `NullReference` error when the chain ends in a null rest |
| `WriteableTuples.ExtendedTuple.ToString` | PackageTuple/Tuple.cs:682-693 | `ToString()` is `"(" + ToStringEnd()` (same error otherwise), hence `"(" + join of the flattened components + ")"` |
| `WriteableTuples.ExtendedTuple.SetItem` | PackageTuple/Tuple.cs:616-640 | setting `Item<n>` works on any eight-slot tuple, one in a cyclic chain included, and changes slot n only, leaving `Rest`; on a well-formed chain it changes component n of the flattened chain only, and `Size` and the null ending stay |
| `WriteableTuples.ExtendedTuple.SetRest` | PackageTuple/Tuple.cs:644 | the setter assigns any value, tuple or not, leaving the items as they were; the tuple is then well formed exactly when the new `Rest` is a well-formed chain (or no tuple) that does not lead back to it |
| `WriteableTuples.ChainedNeverNull` | PackageTuple/Tuple.cs:684-688 | when every rest along the chain is a tuple, rendering never reaches the null fallback |
| `WriteableTuples.FlatRendering` | PackageTuple/Tuple.cs:682-715 | a chain whose every rest is a tuple renders as `"(" + join(flatten(t)) + ")"`, its tail as `join(flatten(t)) + ")"`, and `Size` is the length of `flatten(t)` |
| `WriteableTuples.SingleParenthesisPair` | PackageTuple/Tuple.cs:691 | nested tuples add no parentheses of their own: with parenthesis-free components the rendering has one `(`, first, and one `)`, last |
| `Scenarios.SelfRestIsCyclic` | PackageTuple/Tuple.cs:616-644 | on a `WriteableTuple<…, object>`, after `t.Rest = t` the tuple is no longer a well-formed chain, and `Item1` can still be set on it |
| `WriteableTuples.Create` | PackageTuple/Tuple.cs:38-123 | `Create` with n ≤ 7 values returns a fresh n-tuple holding them in order |
| `WriteableTuples.Create8` | PackageTuple/Tuple.cs:143-144 | `Create` with 8 values returns a tuple whose `Rest` is the 1-tuple of the eighth, with `Size` 8, rendering as `"(v1, …, v8)"` |
| `Scenarios.RenderPair` | PackageTuple/Tuple.cs:233-236 | `Create(1, "a")` renders as `"(1, a)"` |
| `Scenarios.RenderNullSingleton` | PackageTuple/Tuple.cs:175-178 | a 1-tuple holding null renders as `"()"` |
| `Scenarios.RenderEight` | PackageTuple/Tuple.cs:143-144 | `Create(1, …, 8)` renders as `"(1, 2, 3, 4, 5, 6, 7, 8)"` with `Size` 8 |
| `Scenarios.RenderFifteen` | PackageTuple/Tuple.cs:682-715 | two chained eight-slot tuples render as `"(1, …, 15)"` with `Size` 15 |
| `Scenarios.RejectNonTupleRest` | PackageTuple/Tuple.cs:659-662 | a plain value or null as `rest` makes the constructor throw `ArgumentException` |
| `Scenarios.MutationReflected` | PackageTuple/Tuple.cs:290-293 | after setting `Item1` of `(1, 2, 3)` to `x` it renders `"(x, 2, 3)"` |
| `Scenarios.NestedMutationReflected` | PackageTuple/Tuple.cs:689-692 | setting the item of the 1-tuple at the end of an 8-tuple changes the enclosing tuple's rendering |
| `Scenarios.RestBypassesCheck` | PackageTuple/Tuple.cs:685-688 | on a `WriteableTuple<…, object>` built with a 1-tuple as rest, after assigning a plain value to `Rest` it prints as the last component; after assigning null rendering throws; `Size` is 8 in both cases |

## Left out

- Generic, heterogeneous component types and their own `ToString`: each component is the string its `ToString` yields, or none for null (`Rendering.Item`); a component that is itself a tuple is such a string.
- The runtime type test `is` / `as ITupleInternal`: replaced by the explicit `Link` sum type.
- The static type `TRest`: `Link` does not track it, so the model lets any value be assigned to `Rest`; in C# a non-null, non-tuple `Rest` is reachable only when `TRest` admits one (such as `object`); on the tuples `Create` builds only null is, which `Null` covers.
- Exceptions: the constructor's `ArgumentException` and the `NullReferenceException` of `Rest.ToString()` on a null `Rest` are error values of `Rendering.Result`; Dafny constructors cannot fail, so the checking C# constructor is `ExtendedTuple.New`, which calls the anonymous constructor only after the check.
- Cyclic chains: the `Rest` setter can make a chain lead back to a tuple already in it, after which the source's `Size` and rendering recurse until the stack overflows; `Size`, `ToString` and `ToStringEnd` are modelled for acyclic chains (`ExtendedTuple.Valid`) only. The setters accept a cyclic tuple; what `SetItem` does to the flattened chain is stated for acyclic chains only, since a cyclic one has none.
- Aliasing in general: a tuple shared as `Rest` may be changed through another reference; the enclosing tuple's well-formedness is then re-established by the caller's proof (as in `Scenarios.NestedMutationReflected`), not by a contract of the setter.
- The item getters: they read the `items` field directly.
- Thread safety: the classes are unsynchronised, and nothing here is concurrent.
