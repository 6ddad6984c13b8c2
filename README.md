# CannotMakeMoreVisible, modelled in Dafny

This project models one rule of the .NET API-compatibility differ (ApiCompat):
`CannotMakeMoreVisible`. The differ compares a *contract* surface (the published
API baseline) with an *implementation* surface (the candidate build) and
matches their types and members pairwise. For each matched pair this rule
decides whether the implementation made the symbol less visible than the
contract published. If so, it adds one incompatibility to the shared
differences sink and answers `Changed`. Otherwise it answers `Unknown`,
which means "no opinion".

Files:

- `visibility.dfy` (module `Visibility`): the six CCI visibility levels
  (`Public`, `FamilyOrAssembly`, `Assembly`, `Family`, `FamilyAndAssembly`,
  `Private`) plus `Unnamed(code)` for every other value the enumeration can hold
  (CCI's own `Default`, `Other` and `Mask` members among them).
  It contains the decision table `HasReducedVisibility`. It also contains a
  reference meaning for each level: `Reach`, the set of places that can use a
  symbol of that level, following ECMA-335 partition I, section 8.5.3.2. On the
  named levels the table is proved to flag a pair exactly when some place loses
  access.
- `cannot_make_more_visible.dfy` (module `Rules`): symbols, the difference
  records, the append-only sink class `Differences`, and the class
  `CannotMakeMoreVisible` with its two `Diff` overloads. Dafny has no
  overloading, so they are named `DiffMember` and `DiffType`. Both are tied
  to one specification function, `Finding`.

Points of the code's behaviour worth knowing:

- **Internal and protected flag each other.** Changing `Assembly` (internal)
  to `Family` (protected), or back, is flagged in both directions (line 60),
  although neither level is narrower than the other: neither value is
  `Private` or `FamilyAndAssembly`, so line 60 returns true
  (`AssemblyAndFamilyNarrowEachOther`). Under `Reach` each of the two levels
  can be used from somewhere the other cannot
  (`OnlyAssemblyAndFamilyAreIncomparable`), so each change does lose access
  somewhere.
- **Values outside the six levels are not rejected.** An implementation value
  outside the six levels falls through to `false` (line 69). A contract value
  outside them goes through the implementation's row like any other contract
  value not named there; for example, it is flagged against a `Private`,
  `Assembly` or `Family` implementation. The model does the same.
- **Two overloads.** The two overloads repeat the same logic, and the model
  keeps both; `OverloadsAgree` proves they report on the same pairs.

A symbol is an `Option<Symbol>`, where `None` stands for C# `null`, holding a
full name and a visibility.

## Model

| member | source | states |
|---|---|---|
| `Visibility.HasReducedVisibility` | src/Microsoft.DotNet.ApiCompat/src/Rules/Compat/CannotMakeMoreVisible.cs:42-70 | Equal visibilities are never flagged, for every value. A `Public` implementation is never flagged. A value the switch does not name is never flagged. A `Private` implementation is flagged exactly when the contract differs from it. |
| `Visibility.Reach` | src/Microsoft.DotNet.ApiCompat/src/Rules/Compat/CannotMakeMoreVisible.cs:51-66 | Reference meaning of each named level, as the places it can be used from. Every level admits its declaring type. Only `Public` admits unrelated code in another assembly. The family levels admit derived types elsewhere. The assembly levels admit unrelated code in the same assembly. Only `Private` excludes derived types in the same assembly. |
| `Visibility.HasReducedVisibilityIffLosesAccess` | src/Microsoft.DotNet.ApiCompat/src/Rules/Compat/CannotMakeMoreVisible.cs:49-67 | On the six named levels, the table flags (contract, implementation) if and only if some place that can use the contract's symbol cannot use the implementation's. |
| `Visibility.ReachInjective` | src/Microsoft.DotNet.ApiCompat/src/Rules/Compat/CannotMakeMoreVisible.cs:49-67 | Distinct named levels reach different sets of places, so the six cases of the switch are six different accessibilities. |
| `Visibility.OnlyAssemblyAndFamilyAreIncomparable` | src/Microsoft.DotNet.ApiCompat/src/Rules/Compat/CannotMakeMoreVisible.cs:57-60 | Visibility is a partial order. Among named levels, `Assembly` and `Family` are the only pair where neither reaches everywhere the other does. |
| `Visibility.Asymmetric` | src/Microsoft.DotNet.ApiCompat/src/Rules/Compat/CannotMakeMoreVisible.cs:49-69 | For every pair of values except {`Assembly`, `Family`}, including unknown ones: if (c, i) is flagged, then (i, c) is not. |
| `Visibility.AssemblyAndFamilyNarrowEachOther` | src/Microsoft.DotNet.ApiCompat/src/Rules/Compat/CannotMakeMoreVisible.cs:57-60 | Internal→protected and protected→internal are both flagged. |
| `Visibility.ImplementationRows` | src/Microsoft.DotNet.ApiCompat/src/Rules/Compat/CannotMakeMoreVisible.cs:49-69 | The table row by row, for every contract value. `Public`: never flagged. `FamilyOrAssembly`: iff the contract is `Public`. `Assembly`/`Family`: iff the contract is neither itself, `Private` nor `FamilyAndAssembly`. `FamilyAndAssembly`: iff the contract is neither itself nor `Private`. `Private`: iff the contract differs. |
| `Visibility.NarrowerImplementationStaysFlagged` | src/Microsoft.DotNet.ApiCompat/src/Rules/Compat/CannotMakeMoreVisible.cs:49-67 | If an implementation is flagged against a contract, every named level that reaches no further is flagged against that contract too. |
| `Visibility.KnownPairs` | src/Microsoft.DotNet.ApiCompat/src/Rules/Compat/CannotMakeMoreVisible.cs:44-66 | Public→Private is flagged and Private→Public is not. Public→protected internal is flagged. Private protected→Private is flagged and Private→private protected is not. Private protected→protected is not flagged. Internal→internal is not flagged. |
| `Rules.Finding` | src/Microsoft.DotNet.ApiCompat/src/Rules/Compat/CannotMakeMoreVisible.cs:14-24 | No record if either symbol is missing. With both present, a record exactly when the table flags (contract visibility, implementation visibility). That record is an `Incompatible` difference of this rule, naming the implementation symbol's full name, both visibilities and both surface labels. |
| `Rules.FindingIffLosesAccess` | src/Microsoft.DotNet.ApiCompat/src/Rules/Compat/CannotMakeMoreVisible.cs:17-21 | With both symbols present and named visibilities, a record is produced iff some place that can use the contract's symbol cannot use the implementation's. |
| `Rules.OverloadsAgree` | src/Microsoft.DotNet.ApiCompat/src/Rules/Compat/CannotMakeMoreVisible.cs:12-40 | The member and type overloads report on exactly the same pairs. Their records differ only in the symbol kind. |
| `Rules.Differences.AddIncompatibleDifference` | src/Microsoft.DotNet.ApiCompat/src/Rules/Compat/CannotMakeMoreVisible.cs:19-20 | Appends exactly one `Incompatible` record with the given rule and message. Earlier records are unchanged. |
| `Rules.CannotMakeMoreVisible.DiffMember` | src/Microsoft.DotNet.ApiCompat/src/Rules/Compat/CannotMakeMoreVisible.cs:12-25 | The sink gains exactly the `Finding` for the member pair: one record if narrowed, otherwise nothing. Returns `Changed` iff a record was added. Returns `Unknown` with the sink unchanged when either member is missing. |
| `Rules.CannotMakeMoreVisible.DiffType` | src/Microsoft.DotNet.ApiCompat/src/Rules/Compat/CannotMakeMoreVisible.cs:27-40 | The same as `DiffMember`, for a pair of types. |
| `Rules.Scenarios` | src/Microsoft.DotNet.ApiCompat/src/Rules/Compat/CannotMakeMoreVisible.cs:12-40 | A private member that was public yields exactly one `Incompatible` record, naming the member and both visibilities. An internal type that stays internal adds nothing. A missing side adds nothing. A protected member that was private protected adds nothing. |

## Left out

- The CCI metadata model (`ITypeDefinition`, `ITypeDefinitionMember`) and its extension methods `FullName()`, `GetVisibility()` and `GetVisibilityName()` are foreign library code. A symbol is a record of full name and visibility, and the type overload reads the same field as the member overload.
- The rendered message text, including C# string interpolation and the visibility names from `GetVisibilityName()`, is not modelled. The message is kept as its parts: kind, full name, both visibilities and both labels.
- The storage and deduplication inside `IDifferences` are library code. The sink is an append-only sequence.
- The rule's identity is a constant name. In the source it is the rule object itself (`this`).
- Rule discovery through `[ExportDifferenceRule]` (line 9) is registration plumbing, so it is not modelled.
- Concurrency is not modelled. Calls on one sink are taken to run one after another.
- The numeric codes of the enumeration are not modelled. `Unnamed(code)` stands only for values outside the six named levels.
- The surface labels (the base class `CompatDifferenceRule`'s `Implementation` and `Contract` properties, read on every call at lines 20 and 35) are fixed once per rule object, as a constant set by its constructor; a base class whose labels change between calls is not modelled.
