/**
 * The rule `CannotMakeMoreVisible` of the API-compatibility differ: given a
 * matched pair of members or of types, one from the implementation and one
 * from the contract, either of which may be absent, it reports an
 * incompatibility when the implementation's symbol is less visible than the
 * contract's, and otherwise has no opinion.
 */
module Rules {
  import opened Visibility

  datatype Option<T> = None | Some(value: T)

  /** What the metadata model tells the rule about a type or a member: its
      full name and its visibility. */
  datatype Symbol = Symbol(fullName: string, visibility: TypeMemberVisibility)

  /** Which overload of `Diff` produced a message: the noun in its text. */
  datatype SymbolKind = Member | Type

  /** The outcome of one rule evaluation (the two values this rule returns). */
  datatype DifferenceType = Unknown | Changed

  datatype Severity = Incompatible

  /** The two surface labels ("implementation", "contract") the rule's base
      class supplies for messages. */
  datatype SurfaceLabels = SurfaceLabels(implementation: string, contract: string)

  /** The message of a visibility finding, kept as its parts: which kind of
      symbol, the implementation symbol's full name, the implementation's and
      the contract's visibility, and the two surface labels. */
  datatype Message = Message(
    kind: SymbolKind,
    name: string,
    implementationVisibility: TypeMemberVisibility,
    contractVisibility: TypeMemberVisibility,
    implementationLabel: string,
    contractLabel: string)

  /** One record of the differences sink. */
  datatype Difference = Difference(rule: string, severity: Severity, message: Message)

  const RuleName: string := "CannotMakeMoreVisible"

  /** The record one evaluation of the rule contributes to the sink, if any.
      Both `Diff` overloads add exactly this record and nothing else. */
  function Finding(kind: SymbolKind, labels: SurfaceLabels, impl: Option<Symbol>, contract: Option<Symbol>): (d: Option<Difference>)
    // a missing symbol on either side is "no opinion"
    ensures impl.None? || contract.None? ==> d.None?
    // with both present, a record appears exactly when the table flags the pair
    ensures impl.Some? && contract.Some? ==>
      (d.Some? <==> HasReducedVisibility(contract.value.visibility, impl.value.visibility))
    // the record is an incompatibility of this rule naming the implementation's symbol and both visibilities
    ensures d.Some? ==>
      && d.value.rule == RuleName
      && d.value.severity == Incompatible
      && d.value.message.kind == kind
      && d.value.message.name == impl.value.fullName
      && d.value.message.implementationVisibility == impl.value.visibility
      && d.value.message.contractVisibility == contract.value.visibility
      && d.value.message.implementationLabel == labels.implementation
      && d.value.message.contractLabel == labels.contract
  {
    if impl.None? || contract.None? then
      None
    else if HasReducedVisibility(contract.value.visibility, impl.value.visibility) then
      Some(Difference(RuleName, Incompatible,
        Message(kind, impl.value.fullName, impl.value.visibility, contract.value.visibility,
                labels.implementation, labels.contract)))
    else
      None
  }

  /** On the six named levels a record is produced exactly when some place
      that could use the contract's symbol cannot use the implementation's. */
  lemma FindingIffLosesAccess(kind: SymbolKind, labels: SurfaceLabels, impl: Symbol, contract: Symbol)
    requires impl.visibility.IsNamed() && contract.visibility.IsNamed()
    ensures Finding(kind, labels, Some(impl), Some(contract)).Some?
            <==> exists x :: x in Reach(contract.visibility) && x !in Reach(impl.visibility)
  {
    HasReducedVisibilityIffLosesAccess(contract.visibility, impl.visibility);
  }

  /** The member and the type overloads never disagree on a pair of symbols:
      they report under the same conditions and differ only in the noun. */
  lemma OverloadsAgree(labels: SurfaceLabels, impl: Option<Symbol>, contract: Option<Symbol>)
    ensures Finding(Member, labels, impl, contract).Some? == Finding(Type, labels, impl, contract).Some?
    ensures Finding(Member, labels, impl, contract).Some? ==>
      Finding(Type, labels, impl, contract).value
      == Finding(Member, labels, impl, contract).value.(message := Finding(Member, labels, impl, contract).value.message.(kind := Type))
  {
  }

  /** The shared differences sink (`IDifferences`): append-only. */
  class Differences {
    var items: seq<Difference>

    constructor ()
      ensures items == []
    {
      items := [];
    }

    method AddIncompatibleDifference(rule: string, message: Message)
      modifies this
      ensures items == old(items) + [Difference(rule, Incompatible, message)]
    {
      items := items + [Difference(rule, Incompatible, message)];
    }
  }

  /** The rule. It holds no state of its own besides the two surface labels. */
  class CannotMakeMoreVisible {
    const labels: SurfaceLabels

    constructor (labels: SurfaceLabels)
      ensures this.labels == labels
    {
      this.labels := labels;
    }

    /** `Diff` on a matched pair of members. */
    method DiffMember(differences: Differences, impl: Option<Symbol>, contract: Option<Symbol>) returns (r: DifferenceType)
      modifies differences
      ensures differences.items == old(differences.items) +
        (if Finding(Member, labels, impl, contract).Some? then [Finding(Member, labels, impl, contract).value] else [])
      ensures r == Changed <==> Finding(Member, labels, impl, contract).Some?
      ensures impl.None? || contract.None? ==> r == Unknown && differences.items == old(differences.items)
    {
      if impl.None? || contract.None? {
        return Unknown;
      }
      if HasReducedVisibility(contract.value.visibility, impl.value.visibility) {
        differences.AddIncompatibleDifference(RuleName,
          Message(Member, impl.value.fullName, impl.value.visibility, contract.value.visibility,
                  labels.implementation, labels.contract));
        return Changed;
      }
      return Unknown;
    }

    /** `Diff` on a matched pair of types. */
    method DiffType(differences: Differences, impl: Option<Symbol>, contract: Option<Symbol>) returns (r: DifferenceType)
      modifies differences
      ensures differences.items == old(differences.items) +
        (if Finding(Type, labels, impl, contract).Some? then [Finding(Type, labels, impl, contract).value] else [])
      ensures r == Changed <==> Finding(Type, labels, impl, contract).Some?
      ensures impl.None? || contract.None? ==> r == Unknown && differences.items == old(differences.items)
    {
      if impl.None? || contract.None? {
        return Unknown;
      }
      if HasReducedVisibility(contract.value.visibility, impl.value.visibility) {
        differences.AddIncompatibleDifference(RuleName,
          Message(Type, impl.value.fullName, impl.value.visibility, contract.value.visibility,
                  labels.implementation, labels.contract));
        return Changed;
      }
      return Unknown;
    }
  }

  /** A caller's view of the rule on four representative pairs: a private
      member that was public is reported once; an internal type that stays
      internal, a missing side and a protected member that was private
      protected are not reported. */
  method Scenarios(impl: string, contract: string) returns (reported: seq<Difference>)
    ensures |reported| == 1
    ensures reported[0].severity == Incompatible
    ensures reported[0].message.name == "N.C.M"
    ensures reported[0].message.implementationVisibility == Private
    ensures reported[0].message.contractVisibility == Public
  {
    var rule := new CannotMakeMoreVisible(SurfaceLabels(impl, contract));
    var sink := new Differences();
    var r := rule.DiffMember(sink, Some(Symbol("N.C.M", Private)), Some(Symbol("N.C.M", Public)));
    assert HasReducedVisibility(Public, Private);
    assert r == Changed;
    r := rule.DiffType(sink, Some(Symbol("N.C", Assembly)), Some(Symbol("N.C", Assembly)));
    assert r == Unknown;
    r := rule.DiffMember(sink, None, Some(Symbol("N.C.M", Public)));
    assert r == Unknown;
    r := rule.DiffMember(sink, Some(Symbol("N.C.P", Family)), Some(Symbol("N.C.P", FamilyAndAssembly)));
    assert r == Unknown;
    reported := sink.items;
  }
}
