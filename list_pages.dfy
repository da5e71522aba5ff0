// The search boxes and drop-down filters of the expenses, user management,
// invoices and amenity log pages. Each page filters constant data with
// `Array.prototype.filter`: a drop-down value "All" imposes nothing, any other
// value must match exactly, and the search text must occur, ignoring case, in
// one of the page's searchable columns.

module Expenses {

  import Text
  import Seqs

  datatype Expense = Expense(id: int, block: string, etype: string, description: string, amount: real, date: string)

  /** `filterByDate`: every date choice keeps every expense. */
  function FilterByDate(data: seq<Expense>, dateType: string): (r: seq<Expense>)
    ensures r == data
  {
    data
  }

  predicate BlockOk(block: string, e: Expense)
  {
    block == "All" || e.block == block
  }

  predicate TypeOk(etype: string, e: Expense)
  {
    etype == "All" || e.etype == etype
  }

  predicate SearchOk(search: string, e: Expense)
  {
    Text.ContainsIgnoringCase(e.description, search) || Text.ContainsIgnoringCase(e.etype, search)
  }

  /** The filter chain of the page: block, then type, then (for a non-empty search) the
      text, then the date choice. */
  function FilteredExpenses(data: seq<Expense>, block: string, etype: string, search: string, dateType: string)
    : (r: seq<Expense>)
    ensures |r| <= |data|
  {
    var byBlock := if block != "All" then Seqs.Keep(data, (e: Expense) => e.block == block) else data;
    var byType := if etype != "All" then Seqs.Keep(byBlock, (e: Expense) => e.etype == etype) else byBlock;
    var bySearch := if search != "" then Seqs.Keep(byType, (e: Expense) => SearchOk(search, e)) else byType;
    FilterByDate(bySearch, dateType)
  }

  /** The chain is one filter by the conjunction of its three tests, so it keeps exactly
      the expenses that pass all three, in their original order. */
  lemma FilteredExpensesIsConjunction(data: seq<Expense>, block: string, etype: string, search: string, dateType: string)
    ensures FilteredExpenses(data, block, etype, search, dateType)
            == Seqs.Keep(data, (e: Expense) => BlockOk(block, e) && TypeOk(etype, e) && SearchOk(search, e))
    ensures forall e :: e in FilteredExpenses(data, block, etype, search, dateType) <==>
              e in data && BlockOk(block, e) && TypeOk(etype, e) && SearchOk(search, e)
    ensures Seqs.IsSubsequence(FilteredExpenses(data, block, etype, search, dateType), data)
  {
    var b := (e: Expense) => BlockOk(block, e);
    var bt := (e: Expense) => BlockOk(block, e) && TypeOk(etype, e);
    var bts := (e: Expense) => BlockOk(block, e) && TypeOk(etype, e) && SearchOk(search, e);
    var byBlock := if block != "All" then Seqs.Keep(data, (e: Expense) => e.block == block) else data;
    if block != "All" {
      Seqs.KeepCongruent(data, (e: Expense) => e.block == block, b);
    } else {
      Seqs.KeepAll(data, b);
    }
    assert byBlock == Seqs.Keep(data, b);
    var byType := if etype != "All" then Seqs.Keep(byBlock, (e: Expense) => e.etype == etype) else byBlock;
    if etype != "All" {
      Seqs.KeepKeep(data, b, (e: Expense) => e.etype == etype, bt);
    } else {
      Seqs.KeepKeep(data, b, (e: Expense) => true, bt);
      Seqs.KeepAll(byBlock, (e: Expense) => true);
    }
    assert byType == Seqs.Keep(data, bt);
    if search != "" {
      Seqs.KeepKeep(data, bt, (e: Expense) => SearchOk(search, e), bts);
    } else {
      forall e ensures SearchOk(search, e) {
        Text.EmptyOccursEverywhere(e.description);
      }
      Seqs.KeepCongruent(data, bt, bts);
    }
    Seqs.KeepMeaning(data, bts);
  }
}

module UserDirectory {

  import Text
  import Seqs

  datatype DirectoryUser = DirectoryUser(name: string, email: string, role: string, block: string, phone: string, status: string)

  predicate UserMatches(roleFilter: string, search: string, u: DirectoryUser)
  {
    && (roleFilter == "All" || u.role == roleFilter)
    && (Text.ContainsIgnoringCase(u.name, search) || Text.ContainsIgnoringCase(u.email, search))
  }

  /** `filteredUsers`. */
  function FilteredUsers(users: seq<DirectoryUser>, roleFilter: string, search: string): (r: seq<DirectoryUser>)
    ensures |r| <= |users|
  {
    Seqs.Keep(users, (u: DirectoryUser) => UserMatches(roleFilter, search, u))
  }

  /** Every kept user has the chosen role (unless "All") and the search in name or
      e-mail; the result keeps the original order; "All" with no search keeps everyone. */
  lemma FilteredUsersMeaning(users: seq<DirectoryUser>, roleFilter: string, search: string)
    ensures forall u :: u in FilteredUsers(users, roleFilter, search) <==> u in users && UserMatches(roleFilter, search, u)
    ensures roleFilter != "All" ==> forall u :: u in FilteredUsers(users, roleFilter, search) ==> u.role == roleFilter
    ensures Seqs.IsSubsequence(FilteredUsers(users, roleFilter, search), users)
    ensures roleFilter == "All" && search == "" ==> FilteredUsers(users, roleFilter, search) == users
  {
    Seqs.KeepMeaning(users, (u: DirectoryUser) => UserMatches(roleFilter, search, u));
    if roleFilter == "All" && search == "" {
      forall u | u in users ensures UserMatches(roleFilter, search, u) {
        Text.EmptyOccursEverywhere(u.name);
      }
      Seqs.KeepAll(users, (u: DirectoryUser) => UserMatches(roleFilter, search, u));
    }
  }
}

module Invoices {

  import Text
  import Seqs

  datatype Invoice = Invoice(
    id: string, member: string, building: string, unit: string, amenity: string,
    total: real, due: real, paid: real, status: string, date: string)

  predicate InvoiceMatches(statusFilter: string, search: string, inv: Invoice)
  {
    && (statusFilter == "All" || inv.status == statusFilter)
    && (Text.ContainsIgnoringCase(inv.member, search) || Text.ContainsIgnoringCase(inv.id, search)
        || Text.ContainsIgnoringCase(inv.amenity, search))
  }

  /** `filteredInvoices`. */
  function FilteredInvoices(invoices: seq<Invoice>, statusFilter: string, search: string): (r: seq<Invoice>)
    ensures |r| <= |invoices|
  {
    Seqs.Keep(invoices, (inv: Invoice) => InvoiceMatches(statusFilter, search, inv))
  }

  /** Every kept invoice has the chosen status (unless "All") and the search in member,
      id or amenity; the order is kept; "All" with no search keeps every invoice. */
  lemma FilteredInvoicesMeaning(invoices: seq<Invoice>, statusFilter: string, search: string)
    ensures forall inv :: inv in FilteredInvoices(invoices, statusFilter, search) <==>
              inv in invoices && InvoiceMatches(statusFilter, search, inv)
    ensures statusFilter != "All" ==>
              forall inv :: inv in FilteredInvoices(invoices, statusFilter, search) ==> inv.status == statusFilter
    ensures Seqs.IsSubsequence(FilteredInvoices(invoices, statusFilter, search), invoices)
    ensures statusFilter == "All" && search == "" ==> FilteredInvoices(invoices, statusFilter, search) == invoices
  {
    Seqs.KeepMeaning(invoices, (inv: Invoice) => InvoiceMatches(statusFilter, search, inv));
    if statusFilter == "All" && search == "" {
      forall inv | inv in invoices ensures InvoiceMatches(statusFilter, search, inv) {
        Text.EmptyOccursEverywhere(inv.member);
      }
      Seqs.KeepAll(invoices, (inv: Invoice) => InvoiceMatches(statusFilter, search, inv));
    }
  }
}

module AmenityLogs {

  import Text
  import Seqs

  datatype Log = Log(id: string, name: string, amenity: string, block: string, flat: string, slot: string, date: string)

  predicate LogMatches(search: string, log: Log)
  {
    || Text.ContainsIgnoringCase(log.name, search) || Text.ContainsIgnoringCase(log.amenity, search)
    || Text.ContainsIgnoringCase(log.block, search) || Text.ContainsIgnoringCase(log.flat, search)
  }

  /** `filteredLogs`; the logs themselves are read-only state of the page. */
  function FilteredLogs(logs: seq<Log>, search: string): (r: seq<Log>)
    ensures |r| <= |logs|
  {
    Seqs.Keep(logs, (log: Log) => LogMatches(search, log))
  }

  /** A log is kept exactly when the search occurs in its name, amenity, block or flat;
      the result is an order-preserving subsequence; an empty search keeps every log. */
  lemma FilteredLogsMeaning(logs: seq<Log>, search: string)
    ensures forall log :: log in FilteredLogs(logs, search) <==> log in logs && LogMatches(search, log)
    ensures Seqs.IsSubsequence(FilteredLogs(logs, search), logs) && |FilteredLogs(logs, search)| <= |logs|
    ensures search == "" ==> FilteredLogs(logs, search) == logs
  {
    Seqs.KeepMeaning(logs, (log: Log) => LogMatches(search, log));
    if search == "" {
      forall log | log in logs ensures LogMatches(search, log) {
        Text.EmptyOccursEverywhere(log.name);
      }
      Seqs.KeepAll(logs, (log: Log) => LogMatches(search, log));
    }
  }
}
