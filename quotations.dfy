// The vendor quotations page: quotations are uploaded by the estate manager or a
// management-committee (MC) member; when some quotation exceeds 5000 the five MC
// roles must each agree before the quotations can be approved with a reason.

module Quotations {

  import opened Wrappers
  import Seqs

  datatype Quotation = Quotation(
    id: int, vendor: string, purpose: string, amount: real, file: string,
    status: string, uploadedBy: string, date: string)

  /** The approval record: the day, the roles that had agreed, the reason given. */
  datatype Decision = Decision(date: string, approvers: seq<string>, reason: string)

  datatype CurrentUser = CurrentUser(name: string, role: string)

  /** The management committee. */
  const MCRoles: seq<string> := ["President", "Secretary", "Joint Secretary", "Treasurer", "Joint Treasurer"]

  /** Amounts above this need the committee's approval. */
  const ApprovalThreshold: real := 5000.0

  /** `quotations.some(q => q.amount > 5000)`. */
  function NeedsApproval(qs: seq<Quotation>): (r: bool)
    ensures r <==> exists i :: 0 <= i < |qs| && qs[i].amount > ApprovalThreshold
  {
    if qs == [] then false
    else if qs[0].amount > ApprovalThreshold then true
    else
      var rest := NeedsApproval(qs[1..]);
      assert rest <==> exists i :: 1 <= i < |qs| && qs[i].amount > ApprovalThreshold by {
        if rest {
          var j :| 0 <= j < |qs[1..]| && qs[1..][j].amount > ApprovalThreshold;
          assert qs[j + 1] == qs[1..][j];
        }
        if i :| 1 <= i < |qs| && qs[i].amount > ApprovalThreshold {
          assert qs[1..][i - 1] == qs[i];
        }
      }
      rest
  }

  /** `roles.every(role => approvals.includes(role))`. */
  function AllAgreed(roles: seq<string>, approvals: seq<string>): (r: bool)
    ensures r <==> forall role :: role in roles ==> role in approvals
  {
    if roles == [] then true
    else
      var rest := AllAgreed(roles[1..], approvals);
      assert forall role :: role in roles <==> role == roles[0] || role in roles[1..];
      roles[0] in approvals && rest
  }

  /** `canApprove`: every MC role has agreed. */
  function CanApprove(approvals: seq<string>): (r: bool)
    ensures r <==> forall role :: role in MCRoles ==> role in approvals
  {
    AllAgreed(MCRoles, approvals)
  }

  predicate IsMC(role: string)
  {
    role in MCRoles
  }

  /** The Upload button is shown to the estate manager and to MC members. */
  predicate UploadVisible(user: CurrentUser)
    ensures UploadVisible(user) <==> user.role == "Estate Manager" || IsMC(user.role)
  {
    user.role in ["Estate Manager"] + MCRoles
  }

  /** A role's Agree button: enabled only for the current MC user's own role, once. */
  predicate AgreeEnabled(approvals: seq<string>, role: string, user: CurrentUser)
    ensures AgreeEnabled(approvals, role, user) ==> role in MCRoles && role !in approvals && role == user.role
  {
    !(role in approvals) && IsMC(user.role) && user.role == role
  }

  /** The Approve button: every MC role agreed and a reason given. */
  predicate ApproveEnabled(approvals: seq<string>, reason: string)
    ensures ApproveEnabled(approvals, reason) ==> |approvals| >= |MCRoles| && reason != ""
  {
    if CanApprove(approvals) && reason != "" then
      CanApproveNeedsFive(approvals);
      true
    else
      false
  }

  /** `handleMCApproval` on the approvals list: append the role unless already there. */
  function WithApproval(approvals: seq<string>, role: string): (r: seq<string>)
    ensures role in r
    ensures forall x :: x in r <==> x in approvals || x == role
    ensures |approvals| <= |r| && r[..|approvals|] == approvals
  {
    if role in approvals then approvals else approvals + [role]
  }

  /** Agreeing keeps the list free of duplicates and only ever grows it. */
  lemma WithApprovalKeepsDistinct(approvals: seq<string>, role: string)
    requires Seqs.Distinct(approvals)
    ensures Seqs.Distinct(WithApproval(approvals, role))
    ensures |WithApproval(approvals, role)| == |approvals| + (if role in approvals then 0 else 1)
  {
  }

  /** One user has at most one Agree button enabled, and after agreeing none: a single
      user can contribute at most one of the five agreements. */
  lemma OneAgreementPerUser(approvals: seq<string>, user: CurrentUser, r1: string, r2: string)
    ensures AgreeEnabled(approvals, r1, user) && AgreeEnabled(approvals, r2, user) ==> r1 == r2
    ensures AgreeEnabled(approvals, r1, user) ==> r1 in MCRoles
    ensures AgreeEnabled(approvals, r1, user) ==> !AgreeEnabled(WithApproval(approvals, r1), r2, user)
  {
  }

  /** Approval is possible only after at least five distinct agreements. */
  lemma CanApproveNeedsFive(approvals: seq<string>)
    requires CanApprove(approvals)
    ensures |approvals| >= |MCRoles| == 5
  {
    var committee := set x | x in MCRoles;
    var agreed := set x | x in approvals;
    assert Seqs.Distinct(MCRoles);
    Seqs.ElementCount(MCRoles);
    Seqs.ElementCount(approvals);
    assert committee <= agreed;
    assert agreed == committee + (agreed - committee);
  }

  /** `quotations.map(q => ({ ...q, status: "Approved" }))`. */
  function ApproveAll(qs: seq<Quotation>): (r: seq<Quotation>)
    ensures |r| == |qs|
    ensures forall i :: 0 <= i < |qs| ==> r[i].status == "Approved" && r[i].(status := qs[i].status) == qs[i]
  {
    if qs == [] then [] else [qs[0].(status := "Approved")] + ApproveAll(qs[1..])
  }

  /** The data the page starts with: three pending quotations, numbered from 1, one of
      which is large enough to need the committee's approval. */
  function InitialQuotations(): (qs: seq<Quotation>)
    ensures Numbered(qs) && NeedsApproval(qs)
    ensures forall i :: 0 <= i < |qs| ==> qs[i].status == "Pending"
  {
    var qs := [
    Quotation(1, "ABC Corp", "Painting Block A", 12000.0, "abc-quote.pdf", "Pending", "Estate Manager", "2025-06-02"),
    Quotation(2, "XYZ Pvt Ltd", "Painting Block A", 9500.0, "xyz-quote.pdf", "Pending", "Estate Manager", "2025-06-02"),
    Quotation(3, "HomeFix", "Painting Block A", 15000.0, "homefix-quote.pdf", "Pending", "Estate Manager", "2025-06-02")
    ];
    assert qs[0].amount > ApprovalThreshold;
    qs
  }

  /** Quotation ids are their position plus one. */
  ghost predicate Numbered(qs: seq<Quotation>)
  {
    forall i :: 0 <= i < |qs| ==> qs[i].id == i + 1
  }

  /** The page's React state. */
  class QuotationsPage {
    var quotations: seq<Quotation>
    var approvals: seq<string>
    var decision: Option<Decision>
    var reason: string
    var showUpload: bool
    const currentUser: CurrentUser

    /** The quotations are numbered, agreements are distinct, and some quotation needs
        the committee's approval, so the Agree and Approve buttons, which the page shows
        only under `needsApproval`, are always on screen. */
    ghost predicate Valid()
      reads this
    {
      Numbered(quotations) && Seqs.Distinct(approvals) && NeedsApproval(quotations)
    }

    constructor (currentUser: CurrentUser)
      ensures Valid()
      ensures quotations == InitialQuotations() && approvals == [] && decision == None && reason == ""
      ensures !showUpload && this.currentUser == currentUser
    {
      quotations := InitialQuotations();
      approvals := [];
      decision := None;
      reason := "";
      showUpload := false;
      this.currentUser := currentUser;
    }

    /** `handleUpload`: append exactly one pending quotation numbered after the others,
        uploaded by the current user, and close the form. */
    method HandleUpload(vendor: string, purpose: string, amount: real, file: Option<string>, today: string)
      requires Valid()
      modifies this
      ensures Valid()
      ensures quotations == old(quotations) + [Quotation(|old(quotations)| + 1, vendor, purpose, amount,
                                                         if file.Some? then file.value else "",
                                                         "Pending", currentUser.name, today)]
      ensures !showUpload
      ensures approvals == old(approvals) && decision == old(decision) && reason == old(reason)
    {
      var q := Quotation(|quotations| + 1, vendor, purpose, amount,
                         if file.Some? then file.value else "", "Pending", currentUser.name, today);
      var k :| 0 <= k < |quotations| && quotations[k].amount > ApprovalThreshold;
      quotations := quotations + [q];
      assert quotations[k].amount > ApprovalThreshold;
      showUpload := false;
    }

    /** `handleMCApproval`: record the role's agreement once. */
    method HandleMCApproval(role: string)
      requires Valid()
      modifies this
      ensures Valid()
      ensures approvals == WithApproval(old(approvals), role)
      ensures quotations == old(quotations) && decision == old(decision) && reason == old(reason)
      ensures showUpload == old(showUpload)
    {
      WithApprovalKeepsDistinct(approvals, role);
      if !(role in approvals) {
        approvals := approvals + [role];
      }
    }

    /** `handleApprove`: record the decision with the current agreements and reason, and
        mark every quotation approved. */
    method HandleApprove(today: string)
      requires Valid()
      modifies this
      ensures Valid()
      ensures decision == Some(Decision(today, old(approvals), old(reason)))
      ensures quotations == ApproveAll(old(quotations))
      ensures approvals == old(approvals) && reason == old(reason) && showUpload == old(showUpload)
    {
      decision := Some(Decision(today, approvals, reason));
      quotations := ApproveAll(quotations);
    }

    /** The Upload Quotation button opens the form; its Cancel button closes it. */
    method SetShowUpload(open: bool)
      modifies this
      ensures showUpload == open
      ensures quotations == old(quotations) && approvals == old(approvals) && decision == old(decision)
      ensures reason == old(reason)
    {
      showUpload := open;
    }

    /** The reason text box. */
    method SetReason(text: string)
      modifies this
      ensures reason == text
      ensures quotations == old(quotations) && approvals == old(approvals) && decision == old(decision)
      ensures showUpload == old(showUpload)
    {
      reason := text;
    }
  }
}
