/**
 * The main "from" clause of a query model (`from s in Students` in C#) and what it
 * needs to be visited and cloned: the clone context's clause mapping, the join
 * clauses it owns, and a visitor that records the calls it receives.
 */
module Clauses {
  import opened Wrappers
  import opened Utilities

  /** A System.Type, compared by equality only. */
  datatype ClrType = ClrType(fullName: string)

  /**
   * A System.Linq.Expressions.Expression. Foreign expression trees are opaque tokens;
   * the one kind looked into is the QuerySourceReferenceExpression, which points at a
   * query source (a clause object).
   */
  datatype Expression =
    | Foreign(token: nat)
    | QuerySourceReference(ReferencedQuerySource: object)

  /** The query model a clause is visited in; only its identity matters here. */
  class QueryModel {
    constructor () { }
  }

  /** One call received by a visitor. */
  datatype VisitCall = VisitMainFromClause(fromClause: MainFromClause, queryModel: QueryModel)

  /** An IQueryModelVisitor reduced to the log of the calls it receives, in order. */
  class RecordingVisitor {
    var Calls: seq<VisitCall>

    constructor ()
      ensures Calls == []
    {
      Calls := [];
    }
  }

  /** The state of one clone operation: where each original query source went. */
  class CloneContext {
    var ClauseMapping: map<object, Expression>

    constructor ()
      ensures ClauseMapping == map[]
    {
      ClauseMapping := map[];
    }

    /** Registers the expression that replaces references to `querySource` in cloned clauses. */
    method AddMapping(querySource: object, replacement: Expression)
      requires querySource !in ClauseMapping
      modifies this
      ensures ClauseMapping == old(ClauseMapping)[querySource := replacement]
    {
      ClauseMapping := ClauseMapping[querySource := replacement];
    }
  }

  /** `mapping` keeps every entry of `base`, and may hold more. */
  predicate Extends(mapping: map<object, Expression>, base: map<object, Expression>) {
    forall source :: source in base ==> source in mapping && mapping[source] == base[source]
  }

  /** An expression as a clone sees it: a reference to a mapped query source is replaced. */
  function Substitute(mapping: map<object, Expression>, e: Expression): Expression {
    match e
    case QuerySourceReference(source) => if source in mapping then mapping[source] else e
    case Foreign(_) => e
  }

  /** A join clause owned by a from clause (`join c in Courses on s.Id equals c.StudentId`). */
  class JoinClause {
    const ItemName: string
    const ItemType: ClrType
    const InnerSequence: Expression
    const OuterKeySelector: Expression
    const InnerKeySelector: Expression

    constructor (itemName: string, itemType: ClrType, innerSequence: Expression,
                 outerKeySelector: Expression, innerKeySelector: Expression)
      ensures ItemName == itemName && ItemType == itemType && InnerSequence == innerSequence
      ensures OuterKeySelector == outerKeySelector && InnerKeySelector == innerKeySelector
    {
      ItemName, ItemType := itemName, itemType;
      InnerSequence, OuterKeySelector, InnerKeySelector := innerSequence, outerKeySelector, innerKeySelector;
    }

    /**
     * The join clause's own clone step. The main clause relies only on this contract: a
     * fresh copy whose expressions are seen through the mapping as it stands at the call,
     * and a mapping that may gain entries but keeps every entry it had.
     */
    method Clone(cloneContext: CloneContext) returns (c: JoinClause)
      modifies cloneContext
      ensures fresh(c) && ClonedUnder(c, this, old(cloneContext.ClauseMapping))
      ensures Extends(cloneContext.ClauseMapping, old(cloneContext.ClauseMapping))
    {
      var mapping := cloneContext.ClauseMapping;
      c := new JoinClause(ItemName, ItemType, Substitute(mapping, InnerSequence),
                          Substitute(mapping, OuterKeySelector), Substitute(mapping, InnerKeySelector));
    }
  }

  /** `copy` is `original` cloned while the clause mapping was `mapping`. */
  predicate ClonedUnder(copy: JoinClause, original: JoinClause, mapping: map<object, Expression>) {
    copy.ItemName == original.ItemName && copy.ItemType == original.ItemType &&
    copy.InnerSequence == Substitute(mapping, original.InnerSequence) &&
    copy.OuterKeySelector == Substitute(mapping, original.OuterKeySelector) &&
    copy.InnerKeySelector == Substitute(mapping, original.InnerKeySelector)
  }

  /**
   * Why the mapping is registered before the join clauses are cloned: a reference to
   * the original seen before registration stays a reference to the original, and one
   * seen through any mapping that keeps the registration becomes a reference to the
   * clone. That MainFromClause.Clone does register first is stated by its own contract.
   */
  lemma RegistrationRedirectsReferences(base: map<object, Expression>, seen: map<object, Expression>,
                                        original: object, clone: object)
    requires original !in base
    ensures Substitute(base, QuerySourceReference(original)) == QuerySourceReference(original)
    ensures Extends(seen, base[original := QuerySourceReference(clone)]) ==>
              Substitute(seen, QuerySourceReference(original)) == QuerySourceReference(clone)
  {
  }

  /** The three values every from clause carries. */
  datatype ClauseParts = ClauseParts(itemName: string, itemType: ClrType, fromExpression: Expression)

  /**
   * The argument checks of the MainFromClause constructor, in the order C# evaluates
   * them: itemName (null, then empty), itemType, fromExpression.
   */
  function CheckConstructorArguments(itemName: Option<string>, itemType: Option<ClrType>,
                                     fromExpression: Option<Expression>): (r: Result<ClauseParts, ArgumentError>)
    ensures r.Success? <==> itemName.Some? && itemName.value != [] && itemType.Some? && fromExpression.Some?
    ensures r.Success? ==> r.value == ClauseParts(itemName.value, itemType.value, fromExpression.value)
    ensures itemName.None? ==> r == Failure(ArgumentNull("itemName"))
    ensures itemName == Some([]) ==> r == Failure(ArgumentEmpty("itemName"))
    ensures itemName.Some? && itemName.value != [] && itemType.None? ==> r == Failure(ArgumentNull("itemType"))
    ensures itemName.Some? && itemName.value != [] && itemType.Some? && fromExpression.None? ==>
              r == Failure(ArgumentNull("fromExpression"))
  {
    match CheckNotNullOrEmpty("itemName", itemName)
    case Failure(e) => Failure(e)
    case Success(name) =>
      match CheckNotNull("itemType", itemType)
      case Failure(e) => Failure(e)
      case Success(t) =>
        match CheckNotNull("fromExpression", fromExpression)
        case Failure(e) => Failure(e)
        case Success(x) => Success(ClauseParts(name, t, x))
  }

  /** The main data source of a query; its items are processed by the clauses that follow. */
  class MainFromClause {
    var ItemName: string
    var ItemType: ClrType
    var FromExpression: Expression
    var JoinClauses: seq<JoinClause>

    /** A clause always has a non-empty item name. */
    ghost predicate Valid()
      reads this
    {
      ItemName != []
    }

    /** The clause's value: its item name, item type and source expression. */
    function Parts(): ClauseParts
      reads this
    {
      ClauseParts(ItemName, ItemType, FromExpression)
    }

    constructor (itemName: string, itemType: ClrType, fromExpression: Expression)
      requires itemName != []
      ensures Valid()
      ensures ItemName == itemName && ItemType == itemType && FromExpression == fromExpression
      ensures JoinClauses == []
    {
      ItemName, ItemType, FromExpression := itemName, itemType, fromExpression;
      JoinClauses := [];
    }

    /** `new MainFromClause(itemName, itemType, fromExpression)` with its arguments possibly null. */
    static method Create(itemName: Option<string>, itemType: Option<ClrType>, fromExpression: Option<Expression>)
      returns (r: Result<MainFromClause, ArgumentError>)
      ensures r.Failure? ==> CheckConstructorArguments(itemName, itemType, fromExpression) == Failure(r.error)
      ensures r.Success? ==> fresh(r.value) && r.value.Valid() && r.value.JoinClauses == [] &&
                             CheckConstructorArguments(itemName, itemType, fromExpression) == Success(r.value.Parts())
    {
      match CheckConstructorArguments(itemName, itemType, fromExpression)
      case Failure(e) =>
        r := Failure(e);
      case Success(parts) =>
        var clause := new MainFromClause(parts.itemName, parts.itemType, parts.fromExpression);
        r := Success(clause);
    }

    /** Double dispatch: the visitor receives exactly one VisitMainFromClause(this, queryModel). */
    method Accept(visitor: RecordingVisitor?, queryModel: QueryModel?) returns (outcome: Outcome<ArgumentError>)
      modifies visitor
      ensures visitor == null ==> outcome == Fail(ArgumentNull("visitor"))
      ensures visitor != null && queryModel == null ==>
                outcome == Fail(ArgumentNull("queryModel")) && visitor.Calls == old(visitor.Calls)
      ensures visitor != null && queryModel != null ==>
                outcome == Pass && visitor.Calls == old(visitor.Calls) + [VisitMainFromClause(this, queryModel)]
    {
      if visitor == null {
        return Fail(ArgumentNull("visitor"));
      }
      if queryModel == null {
        return Fail(ArgumentNull("queryModel"));
      }
      visitor.Calls := visitor.Calls + [VisitMainFromClause(this, queryModel)];
      outcome := Pass;
    }

    /**
     * Appends, in order, one fresh clone of each of `originalClauses`, each cloned through
     * `cloneContext`; `seen[k]` is the mapping the k-th join clause was cloned under.
     */
    method AddClonedJoinClauses(originalClauses: seq<JoinClause>, cloneContext: CloneContext)
      returns (ghost seen: seq<map<object, Expression>>)
      modifies this`JoinClauses, cloneContext
      ensures |JoinClauses| == |old(JoinClauses)| + |originalClauses| && |seen| == |originalClauses|
      ensures JoinClauses[..|old(JoinClauses)|] == old(JoinClauses)
      ensures forall j :: |old(JoinClauses)| <= j < |JoinClauses| ==>
                fresh(JoinClauses[j]) &&
                ClonedUnder(JoinClauses[j], originalClauses[j - |old(JoinClauses)|], seen[j - |old(JoinClauses)|])
      ensures forall k :: 0 <= k < |seen| ==> Extends(seen[k], old(cloneContext.ClauseMapping))
      ensures Extends(cloneContext.ClauseMapping, old(cloneContext.ClauseMapping))
    {
      ghost var existing := JoinClauses;
      seen := [];
      var i := 0;
      while i < |originalClauses|
        invariant 0 <= i <= |originalClauses| && |seen| == i
        invariant |JoinClauses| == |existing| + i
        invariant JoinClauses[..|existing|] == existing
        invariant forall j :: |existing| <= j < |JoinClauses| ==>
                    fresh(JoinClauses[j]) &&
                    ClonedUnder(JoinClauses[j], originalClauses[j - |existing|], seen[j - |existing|])
        invariant forall k :: 0 <= k < i ==> Extends(seen[k], old(cloneContext.ClauseMapping))
        invariant Extends(cloneContext.ClauseMapping, old(cloneContext.ClauseMapping))
      {
        seen := seen + [cloneContext.ClauseMapping];
        var joinClone := originalClauses[i].Clone(cloneContext);
        JoinClauses := JoinClauses + [joinClone];
        i := i + 1;
      }
    }

    /**
     * A fresh clause with the same value. The context maps this clause to a reference
     * to the clone before the join clauses are cloned, so the cloned joins refer to
     * the clone where the originals referred to this clause.
     */
    method Clone(cloneContext: CloneContext?)
      returns (r: Result<MainFromClause, ArgumentError>, ghost seen: seq<map<object, Expression>>)
      requires Valid()
      requires cloneContext != null ==> this !in cloneContext.ClauseMapping
      modifies cloneContext
      ensures unchanged(this)
      ensures cloneContext == null ==> r == Failure(ArgumentNull("cloneContext"))
      ensures cloneContext != null ==>
                r.Success? && fresh(r.value) && r.value != this &&
                r.value.Valid() && r.value.Parts() == Parts() &&
                this in cloneContext.ClauseMapping &&
                cloneContext.ClauseMapping[this] == QuerySourceReference(r.value) &&
                Extends(cloneContext.ClauseMapping, old(cloneContext.ClauseMapping)[this := QuerySourceReference(r.value)])
      ensures cloneContext != null && r.Success? ==>
                |r.value.JoinClauses| == |JoinClauses| == |seen| &&
                forall i :: 0 <= i < |JoinClauses| ==>
                  fresh(r.value.JoinClauses[i]) &&
                  Extends(seen[i], old(cloneContext.ClauseMapping)[this := QuerySourceReference(r.value)]) &&
                  ClonedUnder(r.value.JoinClauses[i], JoinClauses[i], seen[i])
      ensures cloneContext != null && r.Success? ==>
                forall i :: 0 <= i < |JoinClauses| && JoinClauses[i].OuterKeySelector == QuerySourceReference(this) ==>
                  r.value.JoinClauses[i].OuterKeySelector == QuerySourceReference(r.value)
    {
      if cloneContext == null {
        return Failure(ArgumentNull("cloneContext")), [];
      }
      ghost var before := cloneContext.ClauseMapping;
      var clone := new MainFromClause(ItemName, ItemType, FromExpression);
      cloneContext.AddMapping(this, QuerySourceReference(clone));
      ghost var registered := cloneContext.ClauseMapping;
      assert registered == before[this := QuerySourceReference(clone)];
      var originals := JoinClauses;
      seen := clone.AddClonedJoinClauses(originals, cloneContext);
      assert Extends(cloneContext.ClauseMapping, registered);
      assert this in registered && registered[this] == QuerySourceReference(clone);
      r := Success(clone);
      forall i | 0 <= i < |originals|
        ensures Substitute(seen[i], QuerySourceReference(this)) == QuerySourceReference(clone)
      {
        RegistrationRedirectsReferences(before, seen[i], this, clone);
      }
    }
  }

  /** A main clause `from s in Students` with one join, visited once and cloned once. */
  method CloneExample() {
    var created := MainFromClause.Create(Some("s"), Some(ClrType("Student")), Some(Foreign(0)));
    assert created.Success?;
    var main := created.value;
    var join := new JoinClause("c", ClrType("Course"), Foreign(1), QuerySourceReference(main), Foreign(2));
    main.JoinClauses := [join];

    var visitor := new RecordingVisitor();
    var model := new QueryModel();
    var accepted := main.Accept(visitor, model);
    assert visitor.Calls == [VisitMainFromClause(main, model)];

    var context := new CloneContext();
    var cloned;
    ghost var seen;
    cloned, seen := main.Clone(context);
    var copy := cloned.value;
    assert copy != main && copy.Parts() == main.Parts();
    assert context.ClauseMapping[main] == QuerySourceReference(copy);
    assert copy.JoinClauses[0] != join;
    assert copy.JoinClauses[0].OuterKeySelector == QuerySourceReference(copy);

    var missing := MainFromClause.Create(Some(""), Some(ClrType("Student")), Some(Foreign(0)));
    assert missing == Failure(ArgumentEmpty("itemName"));
  }
}
