// The property controller's handlers over an in-memory property table (newest
// row first, the order `orderBy: { createdAt: 'desc' }` returns) and lease
// table. Each read selects exactly the rows its `where` matches; each write
// checks authentication, validation and the owner-or-manager guard in the
// handler's own order before it touches the table.

module PropertyStore {

  import opened Wrappers
  import opened Validation
  import opened Http
  import opened Accounts
  import opened Properties
  import opened QueryString
  import Seqs
  import ErrorHandling

  /** What Prisma selects for a `where`, in table order. */
  function Select(rows: seq<Property>, w: Where): (r: seq<Property>)
    ensures |r| <= |rows|
  {
    Seqs.Keep(rows, (p: Property) => Matches(w, p))
  }

  /** A `where` that matches exactly the rows of a predicate selects exactly those rows. */
  lemma SelectExactly(rows: seq<Property>, w: Where, scope: Property -> bool)
    requires forall p :: Matches(w, p) <==> scope(p)
    ensures Select(rows, w) == Seqs.Keep(rows, scope)
  {
    Seqs.KeepCongruent(rows, (p: Property) => Matches(w, p), scope);
  }

  /** A selected row is a row of the table that satisfies the predicate. */
  lemma SelectedRow(rows: seq<Property>, scope: Property -> bool, p: Property)
    ensures p in Seqs.Keep(rows, scope) <==> p in rows && scope(p)
  {
    Seqs.KeepMembership(rows, scope, p);
  }

  /** The body of `searchProperties`: the page and the parsed query. */
  datatype SearchPage = SearchPage(result: ListPage, filters: SearchParams)

  /** Prisma's answer to a `where` whose `status` is not an enum member: a
      `PrismaClientValidationError`, which the error middleware turns into a 500. */
  const InvalidEnumValue := ErrorHandling.Failure(ErrorHandling.Plain(None, false), "PrismaClientValidationError",
                                                  "Invalid value for argument `status`. Expected PropertyStatus.")

  const NotFound := "Property not found"
  const NotFoundOrDenied := "Property not found or access denied"

  /** `!userId`: no user, or an empty id. */
  predicate Anonymous(caller: Option<Principal>)
  {
    caller.None? || caller.value.id == ""
  }

  /** The one row with that id that the user owns or manages, if any. */
  predicate Guarded(rows: seq<Property>, id: string, userId: string)
  {
    exists k :: 0 <= k < |rows| && rows[k].id == id && OwnsOrManages(rows[k], userId)
  }

  /** The table with the row of that id replaced by `f` of it. */
  ghost predicate UpdatedRow(old_rows: seq<Property>, rows: seq<Property>, id: string, f: Property -> Property)
  {
    |rows| == |old_rows| && forall i :: 0 <= i < |rows| ==> rows[i] == if old_rows[i].id == id then f(old_rows[i]) else old_rows[i]
  }

  class PropertyTable {
    var properties: seq<Property>
    var leases: seq<Lease>

    /** Property ids are unique. */
    ghost predicate Valid()
      reads this
    {
      UniqueIds(properties)
    }

    constructor (properties: seq<Property>, leases: seq<Lease>)
      requires UniqueIds(properties)
      ensures Valid() && this.properties == properties && this.leases == leases
    {
      this.properties := properties;
      this.leases := leases;
    }

    /** `findFirst({ where: { id, OR: [{ ownerId }, { managerId }] } })`: the index of that row. */
    method FindGuarded(id: string, userId: string) returns (k: Option<nat>)
      ensures k.Some? ==> k.value < |properties| && properties[k.value].id == id
                          && OwnsOrManages(properties[k.value], userId)
      ensures k.None? <==> !Guarded(properties, id, userId)
    {
      if i :| 0 <= i < |properties| && properties[i].id == id && OwnsOrManages(properties[i], userId) {
        k := Some(i);
      } else {
        k := None;
      }
    }

    /** `getProperties`: page `page` of exactly the rows in the caller's list scope, with
        the total and the page count; a status that is not an enum member (and is not
        overridden for a tenant) makes Prisma throw. */
    method GetProperties(caller: Option<Principal>, page: int, limit: int, status: Option<string>)
      returns (r: Reply<ListPage>)
      requires page >= 1 && limit >= 1
      ensures var statusOk := HasRole(caller, Tenant) || status.None? || status.value == "" || status.value in StatusNames;
              && (!statusOk ==> r == Raised(InvalidEnumValue))
              && (statusOk ==>
                    var rows := Seqs.Keep(properties, (p: Property) => ListScope(caller, status, p));
                    r == Success(200, "", ListPage(Window(rows, Skip(page, limit), limit), page, limit, |rows|,
                                                   PageCount(|rows|, limit))))
      ensures r.Success? ==> forall p :: p in r.payload.items ==> p in properties && ListScope(caller, status, p)
      ensures r.Success? && HasRole(caller, Tenant) ==> forall p :: p in r.payload.items ==> p.status == Available
    {
      var skip := Skip(page, limit);
      var w := ListWhere(caller, status);
      if !WellTyped(w) {
        return Raised(InvalidEnumValue);
      }
      SelectExactly(properties, w, (p: Property) => ListScope(caller, status, p));
      var rows := Select(properties, w);
      var items := Window(rows, skip, limit);
      r := Success(200, "", ListPage(items, page, limit, |rows|, PageCount(|rows|, limit)));
      forall p | p in items
        ensures p in properties && ListScope(caller, status, p)
      {
        SelectedRow(properties, (p: Property) => ListScope(caller, status, p), p);
      }
    }

    /** `getPropertyById`: the first row in the caller's read scope, or 404. */
    method GetPropertyById(caller: Option<Principal>, id: string) returns (r: Reply<Property>)
      ensures r.Success? <==> exists p :: p in properties && ReadScope(caller, id, p)
      ensures r.Success? ==> r.status == 200 && r.payload in properties && ReadScope(caller, id, r.payload)
      ensures !r.Success? ==> r == Refused(404, NotFound, [])
    {
      var w := ReadWhere(caller, id);
      SelectExactly(properties, w, (p: Property) => ReadScope(caller, id, p));
      var rows := Select(properties, w);
      if rows == [] {
        r := Refused(404, NotFound, []);
        forall p | p in properties ensures !ReadScope(caller, id, p) {
          SelectedRow(properties, (p: Property) => ReadScope(caller, id, p), p);
        }
      } else {
        r := Success(200, "", rows[0]);
        SelectedRow(properties, (p: Property) => ReadScope(caller, id, p), rows[0]);
      }
    }

    /** `searchProperties`, with the query's numbers converted as the schema intends: a
        query the schema rejects is a 400 "Invalid search parameters" with the issues;
        otherwise page `page` of exactly the rows in the caller's search scope. */
    method SearchProperties(caller: Option<Principal>, query: RawSearchQuery) returns (r: Reply<SearchPage>)
      ensures ValidateRawSearch(query).Err? ==> r == Refused(400, "Invalid search parameters", ValidateRawSearch(query).error)
      ensures ValidateRawSearch(query).Ok? ==>
                var params := ValidateRawSearch(query).value;
                var rows := Seqs.Keep(properties, (p: Property) => SearchScope(caller, params, p));
                r == Success(200, "", SearchPage(ListPage(Window(rows, Skip(params.page, params.limit), params.limit),
                                                          params.page, params.limit, |rows|,
                                                          PageCount(|rows|, params.limit)), params))
      ensures r.Success? ==> forall p :: p in r.payload.result.items ==>
                               p in properties && SearchScope(caller, r.payload.filters, p)
    {
      var parsed := ValidateRawSearch(query);
      if parsed.Err? {
        return Refused(400, "Invalid search parameters", parsed.error);
      }
      var params := parsed.value;
      var skip := Skip(params.page, params.limit);
      var w := SearchWhere(caller, params);
      SelectExactly(properties, w, (p: Property) => SearchScope(caller, params, p));
      var rows := Select(properties, w);
      var items := Window(rows, skip, params.limit);
      r := Success(200, "", SearchPage(ListPage(items, params.page, params.limit, |rows|,
                                                PageCount(|rows|, params.limit)), params));
      forall p | p in items
        ensures p in properties && SearchScope(caller, params, p)
      {
        SelectedRow(properties, (p: Property) => SearchScope(caller, params, p), p);
      }
    }

    /** `createProperty`: validation first (400), then authentication (401), then exactly
        one new row, first in creation order, with the assigned owner and manager. */
    method CreateProperty(caller: Option<Principal>, b: PropertyInput, freshId: string, initialStatus: PropertyStatus)
      returns (r: Reply<Property>)
      requires Valid()
      requires forall p :: p in properties ==> p.id != freshId
      modifies this
      ensures Valid() && leases == old(leases)
      ensures InputIssues(b, true) != [] ==>
                r == Refused(400, ValidationFailed, InputIssues(b, true)) && properties == old(properties)
      ensures InputIssues(b, true) == [] && Anonymous(caller) ==>
                r == Refused(401, NotAuthenticated, []) && properties == old(properties)
      ensures InputIssues(b, true) == [] && !Anonymous(caller) ==>
                && PresentFieldsValid(b) && RequiredPresent(b)
                && r == Success(201, "Property created successfully", NewProperty(b, freshId, caller.value, initialStatus))
                && properties == [NewProperty(b, freshId, caller.value, initialStatus)] + old(properties)
    {
      var issues := InputIssues(b, true);
      if issues != [] {
        return Refused(400, ValidationFailed, issues);
      }
      if Anonymous(caller) {
        return Refused(401, NotAuthenticated, []);
      }
      InputIssuesMeaning(b, true);
      var p := NewProperty(b, freshId, caller.value, initialStatus);
      properties := [p] + properties;
      r := Success(201, "Property created successfully", p);
    }

    /** `updateProperty`: validation (400), authentication (401), the owner-or-manager
        guard (404), then the given fields replace the stored ones in that row only. */
    method UpdateProperty(caller: Option<Principal>, id: string, b: PropertyInput) returns (r: Reply<Property>)
      requires Valid()
      modifies this
      ensures Valid() && leases == old(leases)
      ensures InputIssues(b, false) != [] ==>
                r == Refused(400, ValidationFailed, InputIssues(b, false)) && properties == old(properties)
      ensures InputIssues(b, false) == [] && Anonymous(caller) ==>
                r == Refused(401, NotAuthenticated, []) && properties == old(properties)
      ensures InputIssues(b, false) == [] && !Anonymous(caller) && !Guarded(old(properties), id, caller.value.id) ==>
                r == Refused(404, NotFoundOrDenied, []) && properties == old(properties)
      ensures InputIssues(b, false) == [] && !Anonymous(caller) && Guarded(old(properties), id, caller.value.id) ==>
                && PresentFieldsValid(b)
                && UpdatedRow(old(properties), properties, id, (p: Property) => ApplyInput(p, b))
                && r.Success? && r.status == 200 && r.message == "Property updated successfully"
                && r.payload in properties && r.payload.id == id
    {
      var issues := InputIssues(b, false);
      if issues != [] {
        return Refused(400, ValidationFailed, issues);
      }
      if Anonymous(caller) {
        return Refused(401, NotAuthenticated, []);
      }
      var k := FindGuarded(id, caller.value.id);
      if k.None? {
        return Refused(404, NotFoundOrDenied, []);
      }
      InputIssuesMeaning(b, false);
      var i := k.value;
      var updated := ApplyInput(properties[i], b);
      ghost var before := properties;
      properties := properties[i := updated];
      r := Success(200, "Property updated successfully", updated);
      assert UniqueIds(properties) by {
        forall a, c | 0 <= a < c < |properties| ensures properties[a].id != properties[c].id {
          assert properties[a].id == before[a].id && properties[c].id == before[c].id;
        }
      }
      forall j | 0 <= j < |properties|
        ensures properties[j] == if before[j].id == id then ApplyInput(before[j], b) else before[j]
      {
        if j != i {
          assert before[j].id != before[i].id;
        }
      }
    }

    /** `deleteProperty`: authentication (401), the guard (404), no active lease (400),
        then exactly the row with that id is removed. */
    method DeleteProperty(caller: Option<Principal>, id: string) returns (r: Reply<()>)
      requires Valid()
      modifies this
      ensures Valid() && leases == old(leases)
      ensures Anonymous(caller) ==> r == Refused(401, NotAuthenticated, []) && properties == old(properties)
      ensures !Anonymous(caller) && !Guarded(old(properties), id, caller.value.id) ==>
                r == Refused(404, NotFoundOrDenied, []) && properties == old(properties)
      ensures !Anonymous(caller) && Guarded(old(properties), id, caller.value.id) && ActiveLeaseCount(leases, id) > 0 ==>
                r == Refused(400, "Cannot delete property with active leases", []) && properties == old(properties)
      ensures !Anonymous(caller) && Guarded(old(properties), id, caller.value.id) && ActiveLeaseCount(leases, id) == 0 ==>
                && r == Success(200, "Property deleted successfully", ())
                && properties == Seqs.Keep(old(properties), (p: Property) => p.id != id)
                && |properties| == |old(properties)| - 1
    {
      if Anonymous(caller) {
        return Refused(401, NotAuthenticated, []);
      }
      var k := FindGuarded(id, caller.value.id);
      if k.None? {
        return Refused(404, NotFoundOrDenied, []);
      }
      if ActiveLeaseCount(leases, id) > 0 {
        return Refused(400, "Cannot delete property with active leases", []);
      }
      var i := k.value;
      RemoveAtIsRemoveById(properties, i);
      ghost var before := properties;
      properties := properties[..i] + properties[i + 1..];
      assert UniqueIds(properties) by {
        forall a, c | 0 <= a < c < |properties| ensures properties[a].id != properties[c].id {
          var a', c' := if a < i then a else a + 1, if c < i then c else c + 1;
          assert properties[a] == before[a'] && properties[c] == before[c'];
        }
      }
      r := Success(200, "Property deleted successfully", ());
    }

    /** `updatePropertyStatus`: authentication (401), an enum status (400), the guard (404),
        then only the status of that row changes. */
    method UpdatePropertyStatus(caller: Option<Principal>, id: string, status: Option<string>)
      returns (r: Reply<Property>)
      requires Valid()
      modifies this
      ensures Valid() && leases == old(leases)
      ensures Anonymous(caller) ==> r == Refused(401, NotAuthenticated, []) && properties == old(properties)
      ensures !Anonymous(caller) && (status.None? || status.value !in StatusNames) ==>
                r == Refused(400, "Invalid status", []) && properties == old(properties)
      ensures !Anonymous(caller) && status.Some? && status.value in StatusNames
              && !Guarded(old(properties), id, caller.value.id) ==>
                r == Refused(404, NotFoundOrDenied, []) && properties == old(properties)
      ensures !Anonymous(caller) && status.Some? && status.value in StatusNames
              && Guarded(old(properties), id, caller.value.id) ==>
                && UpdatedRow(old(properties), properties, id, (p: Property) => p.(status := StatusNamed(status.value)))
                && r.Success? && r.status == 200 && r.message == "Property status updated successfully"
                && r.payload.id == id && StatusName(r.payload.status) == status.value
    {
      if Anonymous(caller) {
        return Refused(401, NotAuthenticated, []);
      }
      if status.None? || status.value !in StatusNames {
        return Refused(400, "Invalid status", []);
      }
      var k := FindGuarded(id, caller.value.id);
      if k.None? {
        return Refused(404, NotFoundOrDenied, []);
      }
      var i := k.value;
      var updated := properties[i].(status := StatusNamed(status.value));
      ghost var before := properties;
      properties := properties[i := updated];
      r := Success(200, "Property status updated successfully", updated);
      assert UniqueIds(properties) by {
        forall a, c | 0 <= a < c < |properties| ensures properties[a].id != properties[c].id {
          assert properties[a].id == before[a].id && properties[c].id == before[c].id;
        }
      }
      forall j | 0 <= j < |properties|
        ensures properties[j] == if before[j].id == id then before[j].(status := StatusNamed(status.value)) else before[j]
      {
        if j != i {
          assert before[j].id != before[i].id;
        }
      }
    }
  }
}
