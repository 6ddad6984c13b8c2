/**
 * The accessibility levels of a type or type member and the decision table
 * that tells whether an implementation has narrowed the accessibility its
 * contract published.
 *
 * Beside the table, `Reach` gives the reference meaning of each level: the
 * set of places from which a symbol of that level can be used, following the
 * accessibility rules of ECMA-335, partition I, section 8.5.3.2. The table is
 * proved to agree with "some place that could use the contract's symbol can
 * no longer use the implementation's".
 */
module Visibility {

  /** The CCI `TypeMemberVisibility` enumeration. The six named levels are the
      ones the rule knows about; `Unnamed` stands for every other value the
      enumeration can hold (its `Default`, `Other` (compiler-controlled) and
      `Mask` members, or a value outside the declared ones), identified by its
      numeric code. */
  datatype TypeMemberVisibility =
    | Public             // public
    | FamilyOrAssembly   // protected internal
    | Assembly           // internal
    | Family             // protected
    | FamilyAndAssembly  // private protected
    | Private            // private
    | Unnamed(code: int)
  {
    /** True for the six levels the decision table switches on. */
    predicate IsNamed() {
      !Unnamed?
    }
  }

  /** The decision table: true when the implementation's visibility is less
      visible than the contract's. The argument order is the source's:
      contract first, implementation second. */
  function HasReducedVisibility(contract: TypeMemberVisibility, implementation: TypeMemberVisibility): (r: bool)
    // equal visibilities are never a narrowing, whatever their value
    ensures contract == implementation ==> !r
    // a public implementation can stand in for every contract
    ensures implementation == Public ==> !r
    // a value the table does not know falls through to "not narrowed"
    ensures !implementation.IsNamed() ==> !r
    // a private implementation narrows every contract that differs from it
    ensures implementation == Private ==> (r <==> contract != Private)
  {
    if contract == implementation then
      false
    else
      match implementation
      case Public => false
      case FamilyOrAssembly => contract == Public
      case Assembly | Family => contract != Private && contract != FamilyAndAssembly
      case FamilyAndAssembly => contract != Private
      case Private => true
      case Unnamed(_) => false
  }

  /** The places a symbol can be used from, relative to its declaring type and
      the assembly (module) declaring it. */
  datatype AccessContext =
    | DeclaringType           // code inside the declaring type itself
    | DerivedInAssembly       // a derived type in the same assembly
    | DerivedOutsideAssembly  // a derived type in another assembly
    | OtherInAssembly         // unrelated code in the same assembly
    | OtherOutsideAssembly    // unrelated code in another assembly

  /** Where a symbol of a named visibility level can be used from. */
  function Reach(v: TypeMemberVisibility): (s: set<AccessContext>)
    requires v.IsNamed()
    // every level admits the declaring type itself
    ensures DeclaringType in s
    // only public symbols are usable by unrelated code elsewhere
    ensures OtherOutsideAssembly in s <==> v == Public
    // "family" levels admit derived types in other assemblies, "assembly" levels unrelated code in the same one
    ensures DerivedOutsideAssembly in s <==> v in {Public, FamilyOrAssembly, Family}
    ensures OtherInAssembly in s <==> v in {Public, FamilyOrAssembly, Assembly}
    // only private members are hidden from derived types in the same assembly
    ensures DerivedInAssembly in s <==> v != Private
  {
    match v
    case Public => {DeclaringType, DerivedInAssembly, DerivedOutsideAssembly, OtherInAssembly, OtherOutsideAssembly}
    case FamilyOrAssembly => {DeclaringType, DerivedInAssembly, DerivedOutsideAssembly, OtherInAssembly}
    case Assembly => {DeclaringType, DerivedInAssembly, OtherInAssembly}
    case Family => {DeclaringType, DerivedInAssembly, DerivedOutsideAssembly}
    case FamilyAndAssembly => {DeclaringType, DerivedInAssembly}
    case Private => {DeclaringType}
  }

  /** Some place that can use a symbol of visibility `contract` cannot use one of
      visibility `implementation`. */
  ghost predicate LosesAccess(contract: TypeMemberVisibility, implementation: TypeMemberVisibility)
    requires contract.IsNamed() && implementation.IsNamed()
  {
    exists x :: x in Reach(contract) && x !in Reach(implementation)
  }

  /** On the six named levels the decision table is exactly "some place loses
      access": a narrowing is flagged if and only if it is a real one. */
  lemma HasReducedVisibilityIffLosesAccess(contract: TypeMemberVisibility, implementation: TypeMemberVisibility)
    requires contract.IsNamed() && implementation.IsNamed()
    ensures HasReducedVisibility(contract, implementation) <==> LosesAccess(contract, implementation)
  {
    if HasReducedVisibility(contract, implementation) {
      var lost := match implementation
        case FamilyOrAssembly => OtherOutsideAssembly
        case Assembly => if contract == Public then OtherOutsideAssembly else DerivedOutsideAssembly
        case Family => OtherInAssembly
        case FamilyAndAssembly => if contract == Assembly then OtherInAssembly else DerivedOutsideAssembly
        case _ => DerivedInAssembly;
      assert lost in Reach(contract) && lost !in Reach(implementation);
    } else {
      forall x | x in Reach(contract)
        ensures x in Reach(implementation)
      {
      }
    }
  }

  /** Reach tells the six named levels apart. */
  lemma ReachInjective(a: TypeMemberVisibility, b: TypeMemberVisibility)
    requires a.IsNamed() && b.IsNamed()
    ensures Reach(a) == Reach(b) ==> a == b
  {
  }

  /** Accessibility is a partial order, not a total one: among distinct named
      levels the only pair neither of which reaches everywhere the other does
      is Assembly (internal) and Family (protected). */
  lemma OnlyAssemblyAndFamilyAreIncomparable(a: TypeMemberVisibility, b: TypeMemberVisibility)
    requires a.IsNamed() && b.IsNamed()
    ensures !(Reach(a) <= Reach(b)) && !(Reach(b) <= Reach(a)) <==> {a, b} == {Assembly, Family}
  {
  }

  /** Asymmetry on every pair of values, named or not, except the incomparable
      pair {Assembly, Family}: when changing `contract` into `implementation`
      is a narrowing, changing it back is not. */
  lemma Asymmetric(contract: TypeMemberVisibility, implementation: TypeMemberVisibility)
    requires {contract, implementation} != {Assembly, Family}
    ensures HasReducedVisibility(contract, implementation) ==> !HasReducedVisibility(implementation, contract)
  {
  }

  /** The exception to asymmetry: internal and protected are each flagged
      against the other, since each is usable somewhere the other is not. */
  lemma AssemblyAndFamilyNarrowEachOther()
    ensures HasReducedVisibility(Assembly, Family)
    ensures HasReducedVisibility(Family, Assembly)
  {
  }

  /** The table row by row, for every contract value (named or not). */
  lemma ImplementationRows(contract: TypeMemberVisibility)
    ensures !HasReducedVisibility(contract, Public)
    ensures HasReducedVisibility(contract, FamilyOrAssembly) <==> contract == Public
    ensures HasReducedVisibility(contract, Assembly) <==> contract !in {Assembly, Private, FamilyAndAssembly}
    ensures HasReducedVisibility(contract, Family) <==> contract !in {Family, Private, FamilyAndAssembly}
    ensures HasReducedVisibility(contract, FamilyAndAssembly) <==> contract !in {FamilyAndAssembly, Private}
    ensures HasReducedVisibility(contract, Private) <==> contract != Private
  {
  }

  /** Narrowing is consistent with the lattice: an implementation that reaches
      no further than a flagged one is flagged too, against the same contract. */
  lemma NarrowerImplementationStaysFlagged(contract: TypeMemberVisibility, implementation: TypeMemberVisibility, narrower: TypeMemberVisibility)
    requires contract.IsNamed() && implementation.IsNamed() && narrower.IsNamed()
    requires Reach(narrower) <= Reach(implementation)
    requires HasReducedVisibility(contract, implementation)
    ensures HasReducedVisibility(contract, narrower)
  {
  }

  /** Concrete pairs, contract first. */
  lemma KnownPairs()
    ensures HasReducedVisibility(Public, Private) && !HasReducedVisibility(Private, Public)
    ensures HasReducedVisibility(Public, FamilyOrAssembly)
    ensures HasReducedVisibility(FamilyAndAssembly, Private) && !HasReducedVisibility(Private, FamilyAndAssembly)
    ensures !HasReducedVisibility(FamilyAndAssembly, Family)
    ensures !HasReducedVisibility(Assembly, Assembly)
  {
  }
}
