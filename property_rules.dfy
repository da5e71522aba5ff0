// The rules of the property controller that do not touch the table: the
// records, the request schemas, the `where` filters each handler derives from
// the caller's role and the requested filters, the owner/manager assignment on
// create, and the pagination arithmetic.

module Properties {

  import opened Wrappers
  import opened Validation
  import Text
  import Seqs
  import opened Accounts

  datatype PropertyType = Apartment | House | Condo | Studio | Townhouse
  datatype PropertyStatus = Available | Occupied | Maintenance | Unavailable

  const TypeNames: seq<string> := ["APARTMENT", "HOUSE", "CONDO", "STUDIO", "TOWNHOUSE"]
  const StatusNames: seq<string> := ["AVAILABLE", "OCCUPIED", "MAINTENANCE", "UNAVAILABLE"]

  function TypeName(t: PropertyType): (name: string)
    ensures name in TypeNames
  {
    match t
    case Apartment => "APARTMENT"
    case House => "HOUSE"
    case Condo => "CONDO"
    case Studio => "STUDIO"
    case Townhouse => "TOWNHOUSE"
  }

  function TypeNamed(name: string): (t: PropertyType)
    requires name in TypeNames
    ensures TypeName(t) == name
  {
    if name == "APARTMENT" then Apartment
    else if name == "HOUSE" then House
    else if name == "CONDO" then Condo
    else if name == "STUDIO" then Studio
    else Townhouse
  }

  function StatusName(s: PropertyStatus): (name: string)
    ensures name in StatusNames
  {
    match s
    case Available => "AVAILABLE"
    case Occupied => "OCCUPIED"
    case Maintenance => "MAINTENANCE"
    case Unavailable => "UNAVAILABLE"
  }

  function StatusNamed(name: string): (s: PropertyStatus)
    requires name in StatusNames
    ensures StatusName(s) == name
  {
    if name == "AVAILABLE" then Available
    else if name == "OCCUPIED" then Occupied
    else if name == "MAINTENANCE" then Maintenance
    else Unavailable
  }

  /** A row of the property table (the columns the controller reads or writes). */
  datatype Property = Property(
    id: string, name: string, address: string, city: string, state: string, zipCode: string,
    country: string, ptype: PropertyType, bedrooms: int, bathrooms: real, sqft: Option<int>,
    rent: real, deposit: real, status: PropertyStatus, ownerId: string, managerId: Option<string>)

  /** A row of the lease table. */
  datatype Lease = Lease(id: string, propertyId: string, status: string)

  /** `req.user`, as set by the authentication middleware. */
  datatype Principal = Principal(id: string, role: Role)

  predicate HasRole(caller: Option<Principal>, role: Role)
  {
    caller.Some? && caller.value.role == role
  }

  /* ---- The `where` object and what it selects ---- */

  /** The keys a handler may put in its Prisma `where`; `None` is an absent key. */
  datatype Where = Where(
    id: Option<string>, status: Option<string>, managerId: Option<string>, ownerId: Option<string>,
    city: Option<string>, state: Option<string>, ptype: Option<PropertyType>, bedrooms: Option<int>,
    minBathrooms: Option<real>, minRent: Option<real>, maxRent: Option<real>)

  const EmptyWhere := Where(None, None, None, None, None, None, None, None, None, None, None)

  /** The rows Prisma selects for a `where`: the conjunction of its present keys. */
  predicate Matches(w: Where, p: Property)
  {
    KeyMatches(w, p) && FilterMatches(w, p)
  }

  /** The identity, status and ownership keys. */
  predicate KeyMatches(w: Where, p: Property)
  {
    && (w.id.None? || p.id == w.id.value)
    && (w.status.None? || StatusName(p.status) == w.status.value)
    && (w.managerId.None? || p.managerId == Some(w.managerId.value))
    && (w.ownerId.None? || p.ownerId == w.ownerId.value)
  }

  /** The search keys: `contains` in `insensitive` mode, equality, `gte` and `lte`. */
  predicate FilterMatches(w: Where, p: Property)
  {
    && (w.city.None? || Text.ContainsIgnoringCase(p.city, w.city.value))
    && (w.state.None? || Text.ContainsIgnoringCase(p.state, w.state.value))
    && (w.ptype.None? || p.ptype == w.ptype.value)
    && (w.bedrooms.None? || p.bedrooms == w.bedrooms.value)
    && (w.minBathrooms.None? || p.bathrooms >= w.minBathrooms.value)
    && (w.minRent.None? || p.rent >= w.minRent.value)
    && (w.maxRent.None? || p.rent <= w.maxRent.value)
  }

  /** A `where` without search keys. */
  predicate NoFilters(w: Where)
  {
    w.city.None? && w.state.None? && w.ptype.None? && w.bedrooms.None?
    && w.minBathrooms.None? && w.minRent.None? && w.maxRent.None?
  }

  /** Prisma accepts a `status` key only when it names a member of the enum. */
  predicate WellTyped(w: Where)
  {
    w.status.None? || w.status.value in StatusNames
  }

  /* ---- The access policy, stated per role ---- */

  /** The rows a role may list: tenants see available properties, managers the ones
      they manage, landlords the ones they own, everybody else every row. */
  predicate RoleScope(caller: Option<Principal>, p: Property)
  {
    match caller
    case None => true
    case Some(c) =>
      match c.role
      case Tenant => p.status == Available
      case PropertyManager => p.managerId == Some(c.id)
      case Landlord => p.ownerId == c.id
      case Admin => true
  }

  /** The status a caller asked for, unless the caller is a tenant, whose status is fixed. */
  predicate RequestedStatus(caller: Option<Principal>, status: Option<string>, p: Property)
  {
    HasRole(caller, Tenant) || status.None? || status.value == "" || StatusName(p.status) == status.value
  }

  /** What `getProperties` lists. */
  predicate ListScope(caller: Option<Principal>, status: Option<string>, p: Property)
  {
    RoleScope(caller, p) && RequestedStatus(caller, status, p)
  }

  /** What `getPropertyById` finds: the row with that id, within the caller's ownership
      scope; tenants and admins are not restricted. */
  predicate ReadScope(caller: Option<Principal>, id: string, p: Property)
  {
    && p.id == id
    && (HasRole(caller, PropertyManager) ==> p.managerId == Some(caller.value.id))
    && (HasRole(caller, Landlord) ==> p.ownerId == caller.value.id)
  }

  /** `getProperties`: the requested status, then the role clauses, each one overwriting
      what an earlier one set. */
  method ListWhere(caller: Option<Principal>, status: Option<string>) returns (w: Where)
    ensures forall p :: Matches(w, p) <==> ListScope(caller, status, p)
    ensures HasRole(caller, Tenant) ==> w.status == Some("AVAILABLE")
    ensures WellTyped(w) <==> HasRole(caller, Tenant) || status.None? || status.value == "" || status.value in StatusNames
  {
    w := EmptyWhere;
    if status.Some? && status.value != "" {
      w := w.(status := status);
    }
    if HasRole(caller, Tenant) {
      w := w.(status := Some("AVAILABLE"));
    }
    if HasRole(caller, PropertyManager) {
      w := w.(managerId := Some(caller.value.id));
    }
    if HasRole(caller, Landlord) {
      w := w.(ownerId := Some(caller.value.id));
    }
    assert forall p :: Matches(w, p) <==> ListScope(caller, status, p) by {
      forall p ensures Matches(w, p) <==> ListScope(caller, status, p) {
        if HasRole(caller, Tenant) {
          assert StatusName(p.status) == "AVAILABLE" <==> p.status == Available;
        }
      }
    }
  }

  /** `getPropertyById`: the id, narrowed by `managerId` for managers or by `ownerId`
      for landlords. */
  method ReadWhere(caller: Option<Principal>, id: string) returns (w: Where)
    ensures forall p :: Matches(w, p) <==> ReadScope(caller, id, p)
    ensures WellTyped(w)
  {
    w := EmptyWhere.(id := Some(id));
    if HasRole(caller, PropertyManager) {
      w := w.(managerId := Some(caller.value.id));
    } else if HasRole(caller, Landlord) {
      w := w.(ownerId := Some(caller.value.id));
    }
  }

  /* ---- Search parameters ---- */

  /** The query of `searchProperties`, with numbers already numbers. */
  datatype SearchQuery = SearchQuery(
    city: Option<string>, state: Option<string>, ptype: Option<string>,
    minRent: Option<real>, maxRent: Option<real>, bedrooms: Option<real>, bathrooms: Option<real>,
    status: Option<string>, page: Option<real>, limit: Option<real>)

  /** The query after `searchPropertiesSchema.parse`. */
  datatype SearchParams = SearchParams(
    city: Option<string>, state: Option<string>, ptype: Option<PropertyType>,
    minRent: Option<real>, maxRent: Option<real>, bedrooms: Option<int>, bathrooms: Option<real>,
    status: Option<PropertyStatus>, page: int, limit: int)

  const AtLeast0 := "Number must be greater than or equal to 0"
  const AtLeast1 := "Number must be greater than or equal to 1"
  const AtMost100 := "Number must be less than or equal to 100"

  /** Every violated rule of `searchPropertiesSchema`, in field order. */
  function SearchIssues(q: SearchQuery): seq<Issue>
  {
    EnumRule("type", q.ptype, false, TypeNames)
    + NumberRule("minRent", q.minRent, false, false, Some(0.0), AtLeast0, None, "")
    + NumberRule("maxRent", q.maxRent, false, false, Some(0.0), AtLeast0, None, "")
    + NumberRule("bedrooms", q.bedrooms, false, true, Some(0.0), AtLeast0, None, "")
    + NumberRule("bathrooms", q.bathrooms, false, false, Some(0.0), AtLeast0, None, "")
    + EnumRule("status", q.status, false, StatusNames)
    + NumberRule("page", q.page, false, true, Some(1.0), AtLeast1, None, "")
    + NumberRule("limit", q.limit, false, true, Some(1.0), AtLeast1, Some(100.0), AtMost100)
  }

  /** An optional number that, when present, is at least zero. */
  predicate NonNegative(v: Option<real>)
  {
    v.None? || v.value >= 0.0
  }

  /** `searchPropertiesSchema.parse`: page is an integer of at least 1 (default 1), limit an
      integer between 1 and 100 (default 10); values out of range are rejected, not clamped. */
  function ValidateSearch(q: SearchQuery): (r: Result<SearchParams, seq<Issue>>)
    ensures r.Ok? <==>
              && (q.ptype.Some? ==> q.ptype.value in TypeNames)
              && NonNegative(q.minRent) && NonNegative(q.maxRent) && NonNegative(q.bathrooms)
              && (q.bedrooms.Some? ==> IsInteger(q.bedrooms.value) && q.bedrooms.value >= 0.0)
              && (q.status.Some? ==> q.status.value in StatusNames)
              && (q.page.Some? ==> IsInteger(q.page.value) && q.page.value >= 1.0)
              && (q.limit.Some? ==> IsInteger(q.limit.value) && 1.0 <= q.limit.value <= 100.0)
    ensures r.Err? ==> r.error == SearchIssues(q) && r.error != []
    ensures r.Ok? ==> && 1 <= r.value.page && 1 <= r.value.limit <= 100
                      && r.value.page as real == (if q.page.Some? then q.page.value else 1.0)
                      && r.value.limit as real == (if q.limit.Some? then q.limit.value else 10.0)
                      && r.value.city == q.city && r.value.state == q.state
                      && r.value.minRent == q.minRent && r.value.maxRent == q.maxRent
                      && r.value.bathrooms == q.bathrooms
                      && (r.value.bedrooms.Some? <==> q.bedrooms.Some?)
                      && (r.value.bedrooms.Some? ==> r.value.bedrooms.value as real == q.bedrooms.value)
                      && (r.value.ptype.Some? <==> q.ptype.Some?)
                      && (r.value.ptype.Some? ==> TypeName(r.value.ptype.value) == q.ptype.value)
                      && (r.value.status.Some? <==> q.status.Some?)
                      && (r.value.status.Some? ==> StatusName(r.value.status.value) == q.status.value)
  {
    var issues := SearchIssues(q);
    if issues != [] then Err(issues)
    else
      Ok(SearchParams(
        q.city, q.state,
        if q.ptype.Some? then Some(TypeNamed(q.ptype.value)) else None,
        q.minRent, q.maxRent,
        if q.bedrooms.Some? then Some(q.bedrooms.value.Floor) else None,
        q.bathrooms,
        if q.status.Some? then Some(StatusNamed(q.status.value)) else None,
        if q.page.Some? then q.page.value.Floor else 1,
        if q.limit.Some? then q.limit.value.Floor else 10))
  }

  /** The caller's search filters, as a predicate over a row. */
  predicate SearchFilters(q: SearchParams, p: Property)
  {
    && (q.city.None? || Text.ContainsIgnoringCase(p.city, q.city.value))
    && (q.state.None? || Text.ContainsIgnoringCase(p.state, q.state.value))
    && (q.ptype.None? || p.ptype == q.ptype.value)
    && (q.bedrooms.None? || p.bedrooms == q.bedrooms.value)
    && (q.bathrooms.None? || p.bathrooms >= q.bathrooms.value)
    && (q.minRent.None? || q.minRent.value <= p.rent)
    && (q.maxRent.None? || p.rent <= q.maxRent.value)
  }

  /** What `searchProperties` finds: the caller's filters and requested status, conjoined
      with the role's scope; a tenant's status is always AVAILABLE. */
  predicate SearchScope(caller: Option<Principal>, q: SearchParams, p: Property)
  {
    && SearchFilters(q, p)
    && (HasRole(caller, Tenant) || q.status.None? || p.status == q.status.value)
    && RoleScope(caller, p)
  }

  /** The filter part of `searchProperties`: one key per given filter; an empty city or
      state adds none. */
  method FilterWhere(q: SearchParams) returns (w: Where)
    ensures w.id.None? && w.status.None? && w.managerId.None? && w.ownerId.None?
    ensures forall p :: FilterMatches(w, p) <==> SearchFilters(q, p)
  {
    var city, state := None, None;
    if q.city.Some? && q.city.value != "" {
      city := q.city;
    }
    if q.state.Some? && q.state.value != "" {
      state := q.state;
    }
    var ptype, bedrooms, minBathrooms := None, None, None;
    if q.ptype.Some? {
      ptype := q.ptype;
    }
    if q.bedrooms.Some? {
      bedrooms := q.bedrooms;
    }
    if q.bathrooms.Some? {
      minBathrooms := q.bathrooms;
    }
    var minRent, maxRent := None, None;
    if q.minRent.Some? || q.maxRent.Some? {
      if q.minRent.Some? {
        minRent := q.minRent;
      }
      if q.maxRent.Some? {
        maxRent := q.maxRent;
      }
    }
    w := Where(None, None, None, None, city, state, ptype, bedrooms, minBathrooms, minRent, maxRent);
    FilterKeysMeaning(w, q);
  }

  /** Given text filters only; an empty one is as good as none. */
  function NonEmpty(s: Option<string>): Option<string>
  {
    if s.Some? && s.value != "" then s else None
  }

  lemma FilterKeysMeaning(w: Where, q: SearchParams)
    requires w.city == NonEmpty(q.city) && w.state == NonEmpty(q.state)
    requires w.ptype == q.ptype && w.bedrooms == q.bedrooms && w.minBathrooms == q.bathrooms
    requires w.minRent == q.minRent && w.maxRent == q.maxRent
    ensures forall p :: FilterMatches(w, p) <==> SearchFilters(q, p)
  {
    forall p ensures FilterMatches(w, p) <==> SearchFilters(q, p) {
      Text.EmptyOccursEverywhere(p.city);
      Text.EmptyOccursEverywhere(p.state);
    }
  }

  /** `searchProperties`: the filters, the requested status, then the role clause last,
      a tenant's AVAILABLE overwriting any requested status. */
  method SearchWhere(caller: Option<Principal>, q: SearchParams) returns (w: Where)
    ensures forall p :: Matches(w, p) <==> SearchScope(caller, q, p)
    ensures WellTyped(w)
    ensures HasRole(caller, Tenant) ==> w.status == Some("AVAILABLE")
  {
    w := FilterWhere(q);
    if q.status.Some? {
      w := w.(status := Some(StatusName(q.status.value)));
    }
    ghost var filtered := w;
    if HasRole(caller, Tenant) {
      w := w.(status := Some("AVAILABLE"));
    } else if HasRole(caller, PropertyManager) {
      w := w.(managerId := Some(caller.value.id));
    } else if HasRole(caller, Landlord) {
      w := w.(ownerId := Some(caller.value.id));
    }
    forall p ensures Matches(w, p) <==> SearchScope(caller, q, p) {
      assert FilterMatches(w, p) == FilterMatches(filtered, p);
      StatusNameInjective(p.status, Available);
      if q.status.Some? {
        StatusNameInjective(p.status, q.status.value);
      }
    }
  }

  lemma StatusNameInjective(s: PropertyStatus, t: PropertyStatus)
    ensures StatusName(s) == StatusName(t) <==> s == t
  {
  }

  /* ---- Pagination ---- */

  /** `(page - 1) * limit`. */
  function Skip(page: int, limit: int): (skip: nat)
    requires page >= 1 && limit >= 1
    ensures skip % limit == 0 && skip / limit == page - 1
  {
    DivUnique((page - 1) * limit, limit, page - 1, 0);
    (page - 1) * limit
  }

  /** Euclidean division is determined by quotient and remainder. */
  lemma DivUnique(x: int, d: int, q: int, r: int)
    requires d >= 1 && x == q * d + r && 0 <= r < d
    ensures x / d == q && x % d == r
  {
    var q', r' := x / d, x % d;
    assert x == q' * d + r';
    assert (q' - q) * d == r - r';
    if q' > q {
      MulAtLeast(q' - q, d);
    } else if q' < q {
      MulAtLeast(q - q', d);
    }
  }

  lemma MulAtLeast(a: int, d: int)
    requires a >= 1 && d >= 1
    ensures a * d >= d
  {
    assert a * d == (a - 1) * d + d;
  }

  /** `Math.ceil(total / limit)`: the smallest page count whose pages hold every row. */
  function PageCount(total: nat, limit: int): (pages: nat)
    requires limit >= 1
    ensures pages * limit >= total
    ensures total > 0 ==> (pages - 1) * limit < total
    ensures total == 0 ==> pages == 0
  {
    var pages := (total + limit - 1) / limit;
    PageCountBounds(total, limit, pages);
    pages
  }

  lemma PageCountBounds(total: nat, limit: int, pages: int)
    requires limit >= 1 && pages == (total + limit - 1) / limit
    ensures pages >= 0 && pages * limit >= total
    ensures total > 0 ==> (pages - 1) * limit < total
    ensures total == 0 ==> pages == 0
  {
    var n := total + limit - 1;
    var rem := n % limit;
    assert n == pages * limit + rem;
    assert (pages - 1) * limit == pages * limit - limit;
    if total == 0 {
      assert n < limit;
    }
  }

  /** `findMany({ skip, take })` on the selected rows. */
  function Window<T>(rows: seq<T>, skip: nat, take: nat): (r: seq<T>)
    ensures |r| == if skip >= |rows| then 0 else if skip + take >= |rows| then |rows| - skip else take
    ensures forall i :: 0 <= i < |r| ==> skip + i < |rows| && r[i] == rows[skip + i]
  {
    if skip >= |rows| then []
    else if skip + take >= |rows| then rows[skip..]
    else rows[skip..skip + take]
  }

  /** Page `page` of the rows selected by a predicate, as the list handlers return it. */
  datatype ListPage = ListPage(items: seq<Property>, page: int, limit: int, total: nat, pages: nat)

  /** The pages together hold every selected row exactly once: row `k` is item
      `k % limit` of page `k / limit + 1`, and that page exists. */
  lemma EveryRowOnItsPage(rows: seq<Property>, limit: int, k: nat)
    requires limit >= 1 && k < |rows|
    ensures var page := k / limit + 1;
            && 1 <= page <= PageCount(|rows|, limit)
            && k % limit < |Window(rows, Skip(page, limit), limit)|
            && Window(rows, Skip(page, limit), limit)[k % limit] == rows[k]
  {
    var quot, rem := k / limit, k % limit;
    var page := quot + 1;
    var skip := Skip(page, limit);
    var pages := PageCount(|rows|, limit);
    assert skip == quot * limit;
    assert k == skip + rem;
    if quot >= pages {
      MulMonotone(pages, quot, limit);
    }
    var w := Window(rows, skip, limit);
    assert skip < |rows| && rem < limit;
    assert |w| == (if skip + limit >= |rows| then |rows| - skip else limit);
  }

  lemma MulMonotone(a: int, b: int, d: int)
    requires 0 <= a <= b && d >= 1
    ensures a * d <= b * d
  {
    assert b * d == a * d + (b - a) * d;
  }


  /* ---- Create and update bodies ---- */

  /** The body of `createProperty` / `updateProperty`, numbers already numbers. */
  datatype PropertyInput = PropertyInput(
    name: Option<string>, address: Option<string>, city: Option<string>, state: Option<string>,
    zipCode: Option<string>, country: Option<string>, ptype: Option<string>,
    bedrooms: Option<real>, bathrooms: Option<real>, sqft: Option<real>,
    rent: Option<real>, deposit: Option<real>, managerId: Option<string>)

  /** `createPropertySchema` (`required`) or its `.partial()` form (not `required`): the
      same rules, but in the partial form every field may be absent. */
  function InputIssues(b: PropertyInput, required: bool): seq<Issue>
  {
    TextRule("name", b.name, required, 1, "Property name is required")
    + TextRule("address", b.address, required, 1, "Address is required")
    + TextRule("city", b.city, required, 1, "City is required")
    + TextRule("state", b.state, required, 1, "State is required")
    + TextRule("zipCode", b.zipCode, required, 1, "ZIP code is required")
    + EnumRule("type", b.ptype, required, TypeNames)
    + NumberRule("bedrooms", b.bedrooms, required, true, Some(0.0), "Bedrooms must be 0 or more", None, "")
    + NumberRule("bathrooms", b.bathrooms, required, false, Some(0.0), "Bathrooms must be 0 or more", None, "")
    + NumberRule("sqft", b.sqft, false, true, Some(1.0), "Square footage must be positive", None, "")
    + NumberRule("rent", b.rent, required, false, Some(0.0), "Rent must be 0 or more", None, "")
    + NumberRule("deposit", b.deposit, required, false, Some(0.0), "Deposit must be 0 or more", None, "")
  }

  /** Every rule of the schema holds of the fields that are present. */
  predicate PresentFieldsValid(b: PropertyInput)
  {
    && (b.name.Some? ==> b.name.value != "")
    && (b.address.Some? ==> b.address.value != "")
    && (b.city.Some? ==> b.city.value != "")
    && (b.state.Some? ==> b.state.value != "")
    && (b.zipCode.Some? ==> b.zipCode.value != "")
    && (b.ptype.Some? ==> b.ptype.value in TypeNames)
    && (b.bedrooms.Some? ==> IsInteger(b.bedrooms.value) && b.bedrooms.value >= 0.0)
    && NonNegative(b.bathrooms)
    && (b.sqft.Some? ==> IsInteger(b.sqft.value) && b.sqft.value >= 1.0)
    && NonNegative(b.rent) && NonNegative(b.deposit)
  }

  /** The fields without which a property cannot be created. */
  predicate RequiredPresent(b: PropertyInput)
  {
    && b.name.Some? && b.address.Some? && b.city.Some? && b.state.Some? && b.zipCode.Some?
    && b.ptype.Some? && b.bedrooms.Some? && b.bathrooms.Some? && b.rent.Some? && b.deposit.Some?
  }

  /** A body passes the schema exactly when its present fields are valid and, for create,
      every required field is present. */
  lemma InputIssuesMeaning(b: PropertyInput, required: bool)
    ensures InputIssues(b, required) == [] <==> PresentFieldsValid(b) && (required ==> RequiredPresent(b))
  {
  }

  /** `Number.isInteger` values as integers. */
  function AsInt(x: Option<real>): (r: Option<int>)
    ensures r.Some? <==> x.Some?
    ensures r.Some? ==> r.value as real == x.value.Floor as real
  {
    if x.Some? then Some(x.value.Floor) else None
  }

  /** The owner of a new property: the creator, except that a property manager's
      supplied (non-empty) `managerId` is taken as the owner. */
  function AssignedOwner(creator: Principal, managerId: Option<string>): string
  {
    if creator.role == PropertyManager && managerId.Some? && managerId.value != "" then managerId.value
    else creator.id
  }

  /** The manager of a new property: a property manager who creates becomes the manager;
      any other creator's supplied `managerId` is stored as given. */
  function AssignedManager(creator: Principal, managerId: Option<string>): Option<string>
  {
    if creator.role == PropertyManager then Some(creator.id) else managerId
  }

  /** The assignment on create: the creator always ends up as owner or manager, and a
      non-manager creator is always the owner. */
  lemma CreatorKeepsAccess(creator: Principal, managerId: Option<string>)
    ensures AssignedOwner(creator, managerId) == creator.id || AssignedManager(creator, managerId) == Some(creator.id)
    ensures creator.role != PropertyManager ==>
              AssignedOwner(creator, managerId) == creator.id && AssignedManager(creator, managerId) == managerId
    ensures creator.role == PropertyManager ==>
              AssignedManager(creator, managerId) == Some(creator.id)
              && AssignedOwner(creator, managerId) == (if managerId.Some? && managerId.value != "" then managerId.value
                                                       else creator.id)
  {
  }

  /** The new row built by `createProperty` from a valid body. */
  function NewProperty(b: PropertyInput, id: string, creator: Principal, initialStatus: PropertyStatus): (p: Property)
    requires PresentFieldsValid(b) && RequiredPresent(b)
    ensures p.id == id && p.status == initialStatus
    ensures p.ownerId == AssignedOwner(creator, b.managerId)
    ensures p.managerId == AssignedManager(creator, b.managerId)
    ensures p.country == (if b.country.Some? then b.country.value else "US")
    ensures p.name == b.name.value && p.address == b.address.value && p.city == b.city.value
    ensures p.state == b.state.value && p.zipCode == b.zipCode.value
    ensures TypeName(p.ptype) == b.ptype.value
    ensures p.bedrooms as real == b.bedrooms.value && p.bathrooms == b.bathrooms.value
    ensures p.sqft.Some? <==> b.sqft.Some?
    ensures p.sqft.Some? ==> p.sqft.value as real == b.sqft.value
    ensures p.rent == b.rent.value && p.deposit == b.deposit.value
  {
    Property(id, b.name.value, b.address.value, b.city.value, b.state.value, b.zipCode.value,
             if b.country.Some? then b.country.value else "US",
             TypeNamed(b.ptype.value), b.bedrooms.value.Floor, b.bathrooms.value,
             AsInt(b.sqft), b.rent.value, b.deposit.value, initialStatus,
             AssignedOwner(creator, b.managerId), AssignedManager(creator, b.managerId))
  }

  /** The value of a field after an update: the given one, or the stored one. */
  function Given<T>(field: Option<T>, stored: T): (r: T)
    ensures field.Some? ==> r == field.value
    ensures field.None? ==> r == stored
  {
    if field.Some? then field.value else stored
  }

  /** The all-absent body of `.partial()`. */
  const EmptyInput := PropertyInput(None, None, None, None, None, None, None, None, None, None, None, None, None)

  /** `prisma.property.update({ data: validatedData })`: each field given in the body
      replaces the stored column; absent fields, the id, the owner and the status stay. */
  function ApplyInput(p: Property, b: PropertyInput): (q: Property)
    requires PresentFieldsValid(b)
    ensures q.id == p.id && q.ownerId == p.ownerId && q.status == p.status
    ensures q.name == Given(b.name, p.name) && q.address == Given(b.address, p.address)
    ensures q.city == Given(b.city, p.city) && q.state == Given(b.state, p.state)
    ensures q.zipCode == Given(b.zipCode, p.zipCode) && q.country == Given(b.country, p.country)
    ensures b.ptype.Some? ==> TypeName(q.ptype) == b.ptype.value
    ensures b.ptype.None? ==> q.ptype == p.ptype
    ensures b.bedrooms.Some? ==> q.bedrooms as real == b.bedrooms.value
    ensures b.bedrooms.None? ==> q.bedrooms == p.bedrooms
    ensures q.bathrooms == Given(b.bathrooms, p.bathrooms)
    ensures b.sqft.Some? ==> q.sqft.Some? && q.sqft.value as real == b.sqft.value
    ensures b.sqft.None? ==> q.sqft == p.sqft
    ensures q.rent == Given(b.rent, p.rent) && q.deposit == Given(b.deposit, p.deposit)
    ensures q.managerId == (if b.managerId.Some? then b.managerId else p.managerId)
  {
    Property(p.id, Given(b.name, p.name), Given(b.address, p.address), Given(b.city, p.city),
             Given(b.state, p.state), Given(b.zipCode, p.zipCode), Given(b.country, p.country),
             if b.ptype.Some? then TypeNamed(b.ptype.value) else p.ptype,
             if b.bedrooms.Some? then b.bedrooms.value.Floor else p.bedrooms,
             Given(b.bathrooms, p.bathrooms),
             if b.sqft.Some? then AsInt(b.sqft) else p.sqft,
             Given(b.rent, p.rent), Given(b.deposit, p.deposit), p.status, p.ownerId,
             if b.managerId.Some? then b.managerId else p.managerId)
  }

  /** An empty body changes nothing, and applying the same body twice is applying it once. */
  lemma ApplyInputLaws(p: Property, b: PropertyInput)
    requires PresentFieldsValid(b)
    ensures ApplyInput(p, EmptyInput) == p
    ensures ApplyInput(ApplyInput(p, b), b) == ApplyInput(p, b)
  {
  }

  /** Field by field, the later body's value where it gives one, else the earlier's. */
  function Later(first: PropertyInput, second: PropertyInput): PropertyInput
  {
    PropertyInput(
      Or(second.name, first.name), Or(second.address, first.address), Or(second.city, first.city),
      Or(second.state, first.state), Or(second.zipCode, first.zipCode), Or(second.country, first.country),
      Or(second.ptype, first.ptype), Or(second.bedrooms, first.bedrooms), Or(second.bathrooms, first.bathrooms),
      Or(second.sqft, first.sqft), Or(second.rent, first.rent), Or(second.deposit, first.deposit),
      Or(second.managerId, first.managerId))
  }

  function Or<T>(preferred: Option<T>, fallback: Option<T>): Option<T>
  {
    if preferred.Some? then preferred else fallback
  }

  /** A merge of two valid bodies is valid. */
  lemma LaterValid(first: PropertyInput, second: PropertyInput)
    requires PresentFieldsValid(first) && PresentFieldsValid(second)
    ensures PresentFieldsValid(Later(first, second))
  {
  }

  /** Two updates in a row are one update by the merged body: the later value of each field wins. */
  lemma ApplyInputCompose(p: Property, first: PropertyInput, second: PropertyInput)
    requires PresentFieldsValid(first) && PresentFieldsValid(second)
    ensures PresentFieldsValid(Later(first, second))
    ensures ApplyInput(ApplyInput(p, first), second) == ApplyInput(p, Later(first, second))
  {
    LaterValid(first, second);
  }

  /** The guard of update, delete and status change: the caller owns or manages the row. */
  predicate OwnsOrManages(p: Property, userId: string)
  {
    p.ownerId == userId || p.managerId == Some(userId)
  }

  /** A lease that blocks deletion of its property. */
  predicate ActiveLeaseOf(id: string, l: Lease)
  {
    l.propertyId == id && l.status == "ACTIVE"
  }

  /** `prisma.lease.count({ where: { propertyId, status: 'ACTIVE' } })`. */
  function ActiveLeaseCount(leases: seq<Lease>, id: string): (n: nat)
    ensures n == 0 <==> forall l :: l in leases ==> !ActiveLeaseOf(id, l)
  {
    var active := Seqs.Keep(leases, (l: Lease) => ActiveLeaseOf(id, l));
    assert forall l :: l in active <==> l in leases && ActiveLeaseOf(id, l) by {
      forall l ensures l in active <==> l in leases && ActiveLeaseOf(id, l) {
        Seqs.KeepMembership(leases, (l: Lease) => ActiveLeaseOf(id, l), l);
      }
    }
    if active != [] then
      assert active[0] in active;
      |active|
    else
      |active|
  }

  /** Ids are unique in the property table. */
  ghost predicate UniqueIds(rows: seq<Property>)
  {
    forall i, j :: 0 <= i < j < |rows| ==> rows[i].id != rows[j].id
  }

  /** Deleting the row at index `k` removes exactly the rows with that id. */
  lemma {:induction false} RemoveAtIsRemoveById(rows: seq<Property>, k: nat)
    requires UniqueIds(rows) && k < |rows|
    ensures rows[..k] + rows[k + 1..] == Seqs.Keep(rows, (p: Property) => p.id != rows[k].id)
  {
    var id := rows[k].id;
    if k == 0 {
      Seqs.KeepAll(rows[1..], (p: Property) => p.id != id);
      assert rows[..0] + rows[1..] == rows[1..];
    } else {
      RemoveAtIsRemoveById(rows[1..], k - 1);
      assert rows[1..][k - 1].id == id;
      assert rows[1..][..k - 1] + rows[1..][k..] == rows[1..k] + rows[k + 1..];
      assert rows[..k] + rows[k + 1..] == [rows[0]] + (rows[1..k] + rows[k + 1..]);
    }
  }
}
