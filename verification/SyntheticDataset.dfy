/**
 * The synthetic evaluation dataset: who owns a customer, what an owner is able to do, and why the policy must find the
 * owner.
 */
module SyntheticDataset {
  import opened Text
  import opened MailSchemas
  import opened Rounding
  import opened RoutingPolicy
  import opened RoutingLaws

  const BUSINESS_TYPES := [
    "quotation_request", "purchase_order", "order_change", "delivery_delay", "technical_inquiry", "drawing_review",
    "service_request", "repair_request", "claim", "urgent_failure", "invoice", "certificate_request"]

  const PRODUCT_GROUPS := ["engine", "pump", "valve", "automation", "deck", "electrical"]

  datatype Setup = Setup(prefix: string, assignees: nat, customers: nat, productGroups: nat, projects: nat,
      emails: nat) {
    /** Every list the mails draw from has an element. */
    predicate NonEmpty() { assignees > 0 && customers > 0 && productGroups > 0 && projects > 0 }
  }

  datatype Email = Email(customerName: string, productGroup: string, projectCode: string, businessType: string,
      urgent: bool, assignee: string)

  // ----- the generated lists; identifiers stand for the name-based UUID of this text -----

  function AssigneeId(s: Setup, index: nat): string { "user:" + s.prefix + "assignee-" + Decimal(index) }

  function CustomerName(index: nat): string { "Synthetic Marine Customer " + Padded(index, 2) }

  function ProjectCode(index: nat): string { "PRJ-2026-" + Padded(index, 3) }

  function Assignees(s: Setup): (r: seq<string>)
    ensures |r| == s.assignees
  {
    seq(s.assignees, i requires 0 <= i < s.assignees => AssigneeId(s, i + 1))
  }

  function Customers(s: Setup): (r: seq<string>)
    ensures |r| == s.customers
  {
    seq(s.customers, i requires 0 <= i < s.customers => CustomerName(i + 1))
  }

  function Products(s: Setup): (r: seq<string>)
    ensures s.productGroups > 0 ==> r != []
  {
    if s.productGroups <= |PRODUCT_GROUPS| then PRODUCT_GROUPS[..s.productGroups] else PRODUCT_GROUPS
  }

  function Projects(s: Setup): (r: seq<string>)
    ensures |r| == s.projects
  {
    seq(s.projects, i requires 0 <= i < s.projects => ProjectCode(i + 1))
  }

  /** Mail number `index`, counted from 1. */
  function EmailAt(s: Setup, index: nat): Email
    requires s.NonEmpty() && index > 0
  {
    var customer := (index - 1) % s.customers;
    var businessType := BUSINESS_TYPES[(index * 7) % |BUSINESS_TYPES|];
    Email(
      Customers(s)[customer],
      Products(s)[(index * 3) % |Products(s)|],
      Projects(s)[(index * 5) % s.projects],
      businessType,
      businessType in {"urgent_failure", "claim", "delivery_delay"} && index % 2 == 0,
      Assignees(s)[customer % s.assignees])
  }

  method Emails(s: Setup) returns (rows: seq<Email>)
    requires s.NonEmpty()
    ensures |rows| == s.emails && forall i :: 0 <= i < |rows| ==> rows[i] == EmailAt(s, i + 1)
  {
    var customers, products, projects, assignees := Customers(s), Products(s), Projects(s), Assignees(s);
    rows := [];
    for index := 1 to s.emails + 1
      invariant |rows| == index - 1 && forall i :: 0 <= i < |rows| ==> rows[i] == EmailAt(s, i + 1)
    {
      var customerIndex := (index - 1) % |customers|;
      var businessType := BUSINESS_TYPES[(index * 7) % |BUSINESS_TYPES|];
      var urgent := businessType in {"urgent_failure", "claim", "delivery_delay"} && index % 2 == 0;
      rows := rows + [Email(
        customers[customerIndex], products[(index * 3) % |products|], projects[(index * 5) % |projects|],
        businessType, urgent, assignees[customerIndex % |assignees|])];
    }
  }

  ghost predicate Generated(s: Setup, e: Email)
    requires s.NonEmpty()
  {
    exists index :: index > 0 && e == EmailAt(s, index)
  }

  // ----- capabilities -----

  const KINDS := ["customer", "product", "business_type", "project"]

  /** The value a mail proves its owner can handle, by capability type. */
  function Handled(e: Email, kind: string): Option<string> {
    if kind == "customer" then Some(e.customerName)
    else if kind == "product" then Some(e.productGroup)
    else if kind == "business_type" then Some(e.businessType)
    else if kind == "project" then Some(e.projectCode)
    else None
  }

  /** Some mail of this user shows the capability. */
  ghost predicate Shown(emails: seq<Email>, user: string, kind: string, value: string) {
    exists i :: 0 <= i < |emails| && emails[i].assignee == user && Handled(emails[i], kind) == Some(value)
  }

  datatype Row = Row(user: string, capability: Capability)
  datatype Owned = Owned(customer: set<string>, product: set<string>, businessType: set<string>, project: set<string>) {
    function Values(kind: string): set<string> {
      if kind == "customer" then customer else if kind == "product" then product
      else if kind == "business_type" then businessType else if kind == "project" then project else {}
    }
  }

  /** First pass: collect what each owner's mails show. */
  method CollectOwned(assignees: seq<string>, emails: seq<Email>) returns (owned: map<string, Owned>)
    requires forall i :: 0 <= i < |emails| ==> emails[i].assignee in assignees
    ensures forall a :: a in assignees <==> a in owned
    ensures forall a, kind, value :: a in owned ==> (value in owned[a].Values(kind) <==> Shown(emails, a, kind, value))
  {
    owned := map a | a in assignees :: Owned({}, {}, {}, {});
    for i := 0 to |emails|
      invariant forall a :: a in assignees <==> a in owned
      invariant forall a, kind, value :: a in owned
                  ==> (value in owned[a].Values(kind) <==> Shown(emails[..i], a, kind, value))
    {
      var e := emails[i];
      var o := owned[e.assignee];
      ghost var before := owned;
      owned := owned[e.assignee := Owned(
        o.customer + {e.customerName}, o.product + {e.productGroup},
        o.businessType + {e.businessType}, o.project + {e.projectCode})];
      forall a, kind, value | a in owned
        ensures value in owned[a].Values(kind) <==> Shown(emails[..i + 1], a, kind, value)
      {
        ShownSnoc(emails[..i], e, a, kind, value);
        assert emails[..i + 1] == emails[..i] + [e];
        assert value in before[a].Values(kind) <==> Shown(emails[..i], a, kind, value);
      }
    }
    assert emails[..|emails|] == emails;
  }

  lemma ShownSnoc(emails: seq<Email>, e: Email, a: string, kind: string, value: string)
    ensures Shown(emails + [e], a, kind, value)
      <==> Shown(emails, a, kind, value) || (e.assignee == a && Handled(e, kind) == Some(value))
  {
    hide Handled;
    if Shown(emails, a, kind, value) {
      var i :| 0 <= i < |emails| && emails[i].assignee == a && Handled(emails[i], kind) == Some(value);
      assert (emails + [e])[i] == emails[i];
    }
    if e.assignee == a && Handled(e, kind) == Some(value) {
      assert (emails + [e])[|emails|] == e;
    }
    if Shown(emails + [e], a, kind, value) {
      var i :| 0 <= i <= |emails| && (emails + [e])[i].assignee == a && Handled((emails + [e])[i], kind) == Some(value);
      if i < |emails| { assert emails[i] == (emails + [e])[i]; }
    }
  }

  /** Second pass: one row for every owner, type and value. */
  method Capabilities(assignees: seq<string>, emails: seq<Email>) returns (rows: set<Row>)
    requires forall i :: 0 <= i < |emails| ==> emails[i].assignee in assignees
    ensures forall a, kind, value ::
      Row(a, Capability(kind, value)) in rows <==> a in assignees && kind in KINDS && Shown(emails, a, kind, value)
  {
    var owned := CollectOwned(assignees, emails);
    hide Shown;
    rows := {};
    for i := 0 to |assignees|
      invariant forall a, kind, value ::
        Row(a, Capability(kind, value)) in rows
        <==> a in assignees[..i] && kind in KINDS && Shown(emails, a, kind, value)
    {
      var a := assignees[i];
      var mine := set k, v | k in KINDS && v in owned[a].Values(k) :: Row(a, Capability(k, v));
      assert assignees[..i + 1] == assignees[..i] + [a];
      forall b, kind, value
        ensures Row(b, Capability(kind, value)) in mine <==> b == a && kind in KINDS && Shown(emails, a, kind, value)
      {
        assert value in owned[a].Values(kind) <==> Shown(emails, a, kind, value);
      }
      rows := rows + mine;
    }
    assert assignees[..|assignees|] == assignees;
    forall a, kind, value
      ensures Row(a, Capability(kind, value)) in rows
        <==> a in assignees && kind in KINDS && Shown(emails, a, kind, value)
    {
      assert a in assignees[..|assignees|] <==> a in assignees;
    }
  }

  // ----- one owner per customer -----

  lemma FoldKeepsDigits(s: string)
    requires forall i :: 0 <= i < |s| ==> IsDigit(s[i])
    ensures Fold(s) == s
  {
  }

  /** Customer names stay distinct after normalization. */
  lemma NamesDistinct(a: nat, b: nat)
    requires Normalize(CustomerName(a)) == Normalize(CustomerName(b))
    ensures a == b
  {
    NameNormalizes(a);
    NameNormalizes(b);
    var prefix := Fold("Synthetic Marine Customer ");
    assert (prefix + Padded(a, 2))[|prefix|..] == Padded(a, 2);
    assert (prefix + Padded(b, 2))[|prefix|..] == Padded(b, 2);
    PaddedInjective(a, b, 2);
  }

  lemma NameNormalizes(n: nat)
    ensures Strip(CustomerName(n)) == CustomerName(n)
    ensures Normalize(CustomerName(n)) == Fold("Synthetic Marine Customer ") + Padded(n, 2)
  {
    var prefix, digits := "Synthetic Marine Customer ", Padded(n, 2);
    hide Padded;
    var name := prefix + digits;
    assert name[0] == 'S' && name[|name| - 1] == digits[|digits| - 1];
    StripFixes(name);
    FoldKeepsDigits(digits);
    FoldConcat(prefix, digits);
  }

  lemma FoldConcat(a: string, b: string)
    ensures Fold(a + b) == Fold(a) + Fold(b)
  {
  }

  /** The owner of customer number `customer`, counted from 0. */
  function OwnerOf(s: Setup, customer: nat): string
    requires s.assignees > 0
  {
    AssigneeId(s, customer % s.assignees + 1)
  }

  /** Where the fields of a mail come from. */
  lemma Fields(s: Setup, index: nat) returns (customer: nat, product: nat, project: nat, type_: nat)
    requires s.NonEmpty() && index > 0
    ensures product < |Products(s)| && type_ < |BUSINESS_TYPES|
    ensures var e := EmailAt(s, index);
      && e.customerName == CustomerName(customer + 1) && e.assignee == OwnerOf(s, customer)
      && e.productGroup == Products(s)[product] && e.projectCode == ProjectCode(project + 1)
        && e.businessType == BUSINESS_TYPES[type_]
  {
    hide CustomerName, AssigneeId, ProjectCode;
    customer := (index - 1) % s.customers;
    product := (index * 3) % |Products(s)|;
    project := (index * 5) % s.projects;
    type_ := (index * 7) % |BUSINESS_TYPES|;
  }

  /** Two mails of the same customer, up to normalization, have the same owner. */
  lemma OneOwner(s: Setup, a: Email, b: Email)
    requires s.NonEmpty() && Generated(s, a) && Generated(s, b)
    requires Normalize(a.customerName) == Normalize(b.customerName)
    ensures a.assignee == b.assignee
  {
    hide EmailAt, Normalize;
    var i :| i > 0 && a == EmailAt(s, i);
    var j :| j > 0 && b == EmailAt(s, j);
    OneOwnerAt(s, i, j);
  }

  lemma OneOwnerAt(s: Setup, i: nat, j: nat)
    requires s.NonEmpty() && i > 0 && j > 0
    requires Normalize(EmailAt(s, i).customerName) == Normalize(EmailAt(s, j).customerName)
    ensures EmailAt(s, i).assignee == EmailAt(s, j).assignee
  {
    hide EmailAt, CustomerName, OwnerOf, Normalize, Products, ProjectCode;
    var m, _, _, _ := Fields(s, i);
    var n, _, _, _ := Fields(s, j);
    NamesDistinct(m + 1, n + 1);
  }

  // ----- the policy finds the owner -----

  /** An active user whose capabilities are those shown by the mails, in any order. */
  ghost predicate Provisioned(u: User, emails: seq<Email>) {
    && u.active
    && (forall k :: 0 <= k < |u.capabilities| ==> Shown(emails, u.id, u.capabilities[k].kind, u.capabilities[k].value))
    && (forall kind, value :: kind in KINDS && Shown(emails, u.id, kind, value)
          ==> Capability(kind, value) in u.capabilities)
  }

  /** Facts and classification that state the mail's ground truth; whatever else they contain does not matter. */
  ghost predicate Truthful(e: Email, facts: Facts, c: Classification) {
    && facts.customerName == e.customerName && facts.customerCandidates == []
    && e.productGroup in facts.productGroups && e.projectCode in facts.projectNumbers
    && c.primaryType == e.businessType
  }

  lemma MatchFound(capabilities: seq<Capability>, kind: string, values: seq<string>, value: string)
    requires Capability(kind, value) in capabilities && value in values && Strip(value) != ""
    ensures Match(capabilities, kind, values) == 1.0
  {
    hide Normalize, Strip;
    var i :| 0 <= i < |capabilities| && capabilities[i] == Capability(kind, value);
    assert Normalize(value) in NormalizedValues(values);
  }

  lemma NotBlank(s: string)
    requires s != "" && !IsSpace(s[0])
    ensures Strip(s) != ""
  {
    hide IsSpace;
    assert StripLeft(s) == s;
    KeepsFirst(s);
  }

  lemma {:induction false} KeepsFirst(s: string)
    requires s != "" && !IsSpace(s[0])
    ensures StripRight(s) != ""
  {
    if |s| > 1 && IsSpace(s[|s| - 1]) { KeepsFirst(s[..|s| - 1]); }
  }

  lemma FieldsNotBlank(s: Setup, e: Email)
    requires s.NonEmpty() && Generated(s, e)
    ensures Strip(e.customerName) != "" && Strip(e.productGroup) != "" && Strip(e.businessType) != ""
      && Strip(e.projectCode) != ""
  {
    var i :| i > 0 && e == EmailAt(s, i);
    hide EmailAt, CustomerName, AssigneeId, Normalize, Products, ProjectCode, Strip;
    var customer, product, project, type_ := Fields(s, i);
    NameNormalizes(customer + 1);
    NameNotEmpty(customer + 1);
    ProductNotBlank(s, product);
    TypeNotBlank(type_);
    CodeNotBlank(project + 1);
  }

  lemma NameNotEmpty(n: nat)
    ensures CustomerName(n) != ""
  {
    hide Padded;
  }

  lemma ProductNotBlank(s: Setup, k: nat)
    requires k < |Products(s)|
    ensures Strip(Products(s)[k]) != ""
  {
    assert Products(s)[k] == PRODUCT_GROUPS[k];
    NotBlank(PRODUCT_GROUPS[k]);
  }

  lemma TypeNotBlank(k: nat)
    requires k < |BUSINESS_TYPES|
    ensures Strip(BUSINESS_TYPES[k]) != ""
  {
    NotBlank(BUSINESS_TYPES[k]);
  }

  lemma CodeNotBlank(n: nat)
    ensures Strip(ProjectCode(n)) != ""
  {
    hide Padded;
    assert ProjectCode(n)[0] == 'P';
    NotBlank(ProjectCode(n));
  }

  /** The owner of a mail matches it in all four capability types. */
  lemma OwnerMatches(s: Setup, emails: seq<Email>, e: Email, u: User, facts: Facts, c: Classification, hits: seq<Hit>)
    requires s.NonEmpty() && Generated(s, e) && e in emails && u.id == e.assignee && Provisioned(u, emails)
      && Truthful(e, facts, c)
    ensures var x := ComponentsOf(u, facts, c, hits);
      x.customer == 1.0 && x.product == 1.0 && x.businessType == 1.0 && x.project == 1.0 && x.availability == 1.0
  {
    FieldsNotBlank(s, e);
    var i :| 0 <= i < |emails| && emails[i] == e;
    assert Handled(e, "customer") == Some(e.customerName) && Handled(e, "product") == Some(e.productGroup)
        && Handled(e, "business_type") == Some(e.businessType) && Handled(e, "project") == Some(e.projectCode);
    hide Strip, Match, Handled, Evidence;
    assert Shown(emails, u.id, "customer", e.customerName) && Shown(emails, u.id, "product", e.productGroup)
        && Shown(emails, u.id, "business_type", e.businessType) && Shown(emails, u.id, "project", e.projectCode);
    assert KINDS[0] == "customer" && KINDS[1] == "product" && KINDS[2] == "business_type" && KINDS[3] == "project";
    MatchFound(u.capabilities, "customer", [facts.customerName] + facts.customerCandidates, e.customerName);
    MatchFound(u.capabilities, "product", facts.productNames + facts.productGroups + facts.partNumbers, e.productGroup);
    MatchFound(u.capabilities, "business_type", [c.primaryType] + c.secondaryTypes, e.businessType);
    MatchFound(u.capabilities, "project", facts.projectNumbers + facts.vesselNames, e.projectCode);
  }

  /** Nobody else matches its customer. */
  lemma OthersMissCustomer(s: Setup, emails: seq<Email>, e: Email, u: User, facts: Facts, c: Classification,
      hits: seq<Hit>)
    requires s.NonEmpty() && (forall k :: 0 <= k < |emails| ==> Generated(s, emails[k]))
    requires Generated(s, e) && u.id != e.assignee && Provisioned(u, emails) && Truthful(e, facts, c)
    ensures ComponentsOf(u, facts, c, hits).customer == 0.0
  {
    hide Normalize, Strip, Generated, Evidence;
    var values := [facts.customerName] + facts.customerCandidates;
    forall i | 0 <= i < |u.capabilities| && u.capabilities[i].kind == "customer"
      ensures Normalize(u.capabilities[i].value) !in NormalizedValues(values)
    {
      if Normalize(u.capabilities[i].value) in NormalizedValues(values) {
        assert Shown(emails, u.id, "customer", u.capabilities[i].value);
        var k :| 0 <= k < |emails| && emails[k].assignee == u.id
          && Handled(emails[k], "customer") == Some(u.capabilities[i].value);
        OneOwner(s, emails[k], e);
      }
    }
  }

  /**
   * For every setup with non-empty lists and every one of its mails, stated truthfully and with any retrieval evidence
   * at all: the expected assignee scores at least 0.85 and at least 0.15 more than any other provisioned user.
   */
  lemma OwnerLeads(s: Setup, emails: seq<Email>, e: Email, owner: User, other: User, facts: Facts, c: Classification,
      hits: seq<Hit>)
    requires s.NonEmpty() && |emails| == s.emails && (forall k :: 0 <= k < |emails| ==> emails[k] == EmailAt(s, k + 1))
      && e in emails
    requires owner.id == e.assignee && Provisioned(owner, emails) && other.id != e.assignee
      && Provisioned(other, emails)
    requires Truthful(e, facts, c) && forall k :: 0 <= k < |hits| ==> hits[k].Valid()
    ensures Total(owner, facts, c, hits) >= 0.85
    ensures Total(owner, facts, c, hits) - Total(other, facts, c, hits) >= 0.15
  {
    AllGenerated(s, emails);
    OwnerMatches(s, emails, e, owner, facts, c, hits);
    OthersMissCustomer(s, emails, e, other, facts, c, hits);
    ComponentsInUnit(owner, facts, c, hits);
    ComponentsInUnit(other, facts, c, hits);
    hide ComponentsOf, Round4;
    RoundMonotone(0.85, Weighted(ComponentsOf(owner, facts, c, hits)));
    RoundMonotone(Weighted(ComponentsOf(other, facts, c, hits)), 0.70);
    RoundExact(8500);
    RoundExact(7000);
  }

  lemma AllGenerated(s: Setup, emails: seq<Email>)
    requires s.NonEmpty() && forall k :: 0 <= k < |emails| ==> emails[k] == EmailAt(s, k + 1)
    ensures forall k :: 0 <= k < |emails| ==> Generated(s, emails[k])
    ensures forall e :: e in emails ==> Generated(s, e)
  {
    hide EmailAt;
  }

  /** So with the default settings every such mail that is otherwise clear is assigned automatically, to its owner. */
  lemma OwnerIsAssigned(s: Setup, emails: seq<Email>, e: Email, users: seq<User>, i: nat, facts: Facts,
      c: Classification, hits: seq<Hit>)
    requires s.NonEmpty() && |emails| == s.emails && (forall k :: 0 <= k < |emails| ==> emails[k] == EmailAt(s, k + 1))
      && e in emails
    requires forall k :: 0 <= k < |users| ==> Provisioned(users[k], emails)
    requires forall j, k :: 0 <= j < k < |users| ==> users[j].id != users[k].id
    requires i < |users| && users[i].id == e.assignee
    requires Truthful(e, facts, c) && (forall k :: 0 <= k < |hits| ==> hits[k].Valid())
    requires c.confidence >= 0.78 && !c.reviewRequired && facts.contradictions == []
    ensures Policy(DEFAULTS, users, facts, c, hits).autoAssign
    ensures Policy(DEFAULTS, users, facts, c, hits).selected == Some(e.assignee)
  {
    hide Policy, Total, Provisioned, EmailAt;
    AloneLeads(s, emails, e, users[i], facts, c, hits);
    forall j | 0 <= j < |users| && j != i
      ensures Total(users[i], facts, c, hits) - Total(users[j], facts, c, hits) >= 0.15
    {
      assert users[j].id != users[i].id by {
        if j < i { assert users[j].id != users[i].id; } else { assert users[i].id != users[j].id; }
      }
      OwnerLeads(s, emails, e, users[i], users[j], facts, c, hits);
    }
    assert facts.productGroups != [];
    LeaderIsAssigned(DEFAULTS, users, facts, c, hits, i);
  }

  lemma AloneLeads(s: Setup, emails: seq<Email>, e: Email, owner: User, facts: Facts, c: Classification, hits: seq<Hit>)
    requires s.NonEmpty() && (forall k :: 0 <= k < |emails| ==> emails[k] == EmailAt(s, k + 1)) && e in emails
    requires owner.id == e.assignee && Provisioned(owner, emails) && Truthful(e, facts, c)
    requires forall k :: 0 <= k < |hits| ==> hits[k].Valid()
    ensures Total(owner, facts, c, hits) >= 0.85
  {
    AllGenerated(s, emails);
    OwnerMatches(s, emails, e, owner, facts, c, hits);
    ComponentsInUnit(owner, facts, c, hits);
    hide ComponentsOf, Round4;
    RoundMonotone(0.85, Weighted(ComponentsOf(owner, facts, c, hits)));
    RoundExact(8500);
  }
}
