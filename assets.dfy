// The assets page: a searchable asset register in which sending an asset for
// repair needs the agreement of all five committee roles, collected per asset;
// the agreement that completes the list puts the asset under repair.

module Assets {

  import opened Wrappers
  import Text
  import Seqs

  datatype AssetStatus = Active | UnderRepair | Disposed

  datatype Asset = Asset(
    id: int, serial: string, name: string, category: string, status: AssetStatus,
    purchaseDate: string, lastRepair: Option<string>, disposalDate: Option<string>,
    repairApproval: Option<bool>, repairRequestedBy: Option<string>)

  /** The roles whose agreement an asset's exit for repair needs. */
  const ApprovalRoles: seq<string> := ["President", "Secretary", "Joint Secretary", "Treasurer", "Joint Treasurer"]

  const InitialAssets: seq<Asset> := [
    Asset(1, "AS-0001", "Lift Motor", "Machinery", Active, "2023-01-15", None, None, None, None),
    Asset(2, "AS-0002", "Generator", "Machinery", UnderRepair, "2022-08-10", Some("2025-05-30"), None,
          Some(false), Some("Estate Manager")),
    Asset(3, "AS-0003", "Clubhouse Sofa", "Furniture", Disposed, "2021-03-12", None, Some("2025-04-01"), None, None),
    Asset(4, "AS-0004", "Swimming Pool Pump", "Machinery", Active, "2024-02-20", None, None, None, None)
  ]

  /** The search test: name, serial or category contains the search, ignoring case. */
  predicate AssetMatches(search: string, a: Asset)
  {
    Text.ContainsIgnoringCase(a.name, search)
    || Text.ContainsIgnoringCase(a.serial, search)
    || Text.ContainsIgnoringCase(a.category, search)
  }

  /** `filteredAssets`. */
  function FilteredAssets(assets: seq<Asset>, search: string): (r: seq<Asset>)
    ensures |r| <= |assets|
  {
    Seqs.Keep(assets, (a: Asset) => AssetMatches(search, a))
  }

  /** The search keeps exactly the matching assets, in their original order, and an
      empty search keeps them all. */
  lemma FilteredAssetsMeaning(assets: seq<Asset>, search: string)
    ensures forall a :: a in FilteredAssets(assets, search) <==> a in assets && AssetMatches(search, a)
    ensures Seqs.IsSubsequence(FilteredAssets(assets, search), assets)
    ensures search == "" ==> FilteredAssets(assets, search) == assets
  {
    forall a ensures a in FilteredAssets(assets, search) <==> a in assets && AssetMatches(search, a) {
      Seqs.KeepMembership(assets, (a: Asset) => AssetMatches(search, a), a);
    }
    Seqs.KeepIsSubsequence(assets, (a: Asset) => AssetMatches(search, a));
    if search == "" {
      forall a | a in assets ensures AssetMatches(search, a) {
        Text.EmptyOccursEverywhere(a.name);
      }
      Seqs.KeepAll(assets, (a: Asset) => AssetMatches(search, a));
    }
  }

  /** What the actions cell of a row offers. */
  datatype RowAction = RepairButton | AwaitingApproval | WhatsAppButton | DisposedLabel

  /** The actions shown for an asset in each status. */
  function RowActions(s: AssetStatus): (r: set<RowAction>)
    ensures RepairButton in r <==> s == Active
    ensures WhatsAppButton in r <==> s == UnderRepair
    ensures (AwaitingApproval in r) == (WhatsAppButton in r)
    ensures s == Disposed <==> r == {DisposedLabel}
  {
    match s
    case Active => {RepairButton}
    case UnderRepair => {AwaitingApproval, WhatsAppButton}
    case Disposed => {DisposedLabel}
  }

  /** The approvals recorded for an asset; none before the first. */
  function ApprovalsOf(approvals: map<int, seq<string>>, assetId: int): seq<string>
  {
    if assetId in approvals then approvals[assetId] else []
  }

  /** `assets.map(a => a.id === assetId ? { ...a, repairApproval: true, status: "Under Repair" } : a)`. */
  function MarkUnderRepair(assets: seq<Asset>, assetId: int): (r: seq<Asset>)
    ensures |r| == |assets|
    ensures forall i :: 0 <= i < |assets| ==>
              r[i] == if assets[i].id == assetId then assets[i].(repairApproval := Some(true), status := UnderRepair)
                      else assets[i]
  {
    if assets == [] then []
    else [if assets[0].id == assetId then assets[0].(repairApproval := Some(true), status := UnderRepair)
          else assets[0]] + MarkUnderRepair(assets[1..], assetId)
  }

  /** The length test of `handleApprove` means "every role has agreed" for a list of
      distinct roles drawn from the approval roles. */
  lemma CountMeansEveryone(list: seq<string>)
    requires Seqs.Distinct(list)
    requires forall r :: r in list ==> r in ApprovalRoles
    ensures |list| == |ApprovalRoles| <==> forall r :: r in ApprovalRoles ==> r in list
  {
    assert Seqs.Distinct(ApprovalRoles);
    Seqs.FullWhenComplete(list, ApprovalRoles);
  }

  ghost predicate UniqueAssetIds(assets: seq<Asset>)
  {
    forall i, j :: 0 <= i < j < |assets| ==> assets[i].id != assets[j].id
  }

  /** The page's React state. */
  class AssetsPage {
    var assets: seq<Asset>
    var search: string
    var showApproval: Option<int>
    var approvals: map<int, seq<string>>

    /** Every asset's approval list is free of repeats. */
    ghost predicate Valid()
      reads this
    {
      && UniqueAssetIds(assets)
      && forall id :: id in approvals ==> Seqs.Distinct(approvals[id])
    }

    constructor ()
      ensures Valid()
      ensures assets == InitialAssets && search == "" && showApproval == None && approvals == map[]
    {
      assets := InitialAssets;
      search := "";
      showApproval := None;
      approvals := map[];
    }

    /** The Repair button of an active asset opens its approval dialog. */
    method RequestRepair(assetId: int)
      modifies this
      ensures showApproval == Some(assetId)
      ensures assets == old(assets) && approvals == old(approvals) && search == old(search)
    {
      showApproval := Some(assetId);
    }

    /** `handleApprove`: add the role to the asset's list once; when the list reaches the
        number of approval roles, put that asset (and no other) under repair and close
        the dialog. */
    method HandleApprove(assetId: int, role: string)
      requires Valid()
      modifies this
      ensures Valid()
      ensures var list := ApprovalsOf(old(approvals), assetId);
              approvals == old(approvals)[assetId := if role in list then list else list + [role]]
      ensures |approvals[assetId]| == |ApprovalRoles| ==>
                assets == MarkUnderRepair(old(assets), assetId) && showApproval == None
      ensures |approvals[assetId]| != |ApprovalRoles| ==>
                assets == old(assets) && showApproval == old(showApproval)
      ensures search == old(search)
    {
      var list := ApprovalsOf(approvals, assetId);
      if !(role in list) {
        list := list + [role];
      }
      approvals := approvals[assetId := list];
      if |list| == |ApprovalRoles| {
        assets := MarkUnderRepair(assets, assetId);
        showApproval := None;
      }
      assert UniqueAssetIds(assets) by {
        forall i, j | 0 <= i < j < |assets| ensures assets[i].id != assets[j].id {
          assert assets[i].id == old(assets)[i].id && assets[j].id == old(assets)[j].id;
        }
      }
    }

    /** The dialog's Close button dismisses it without recording anything. */
    method CloseApproval()
      modifies this
      ensures showApproval == None
      ensures assets == old(assets) && approvals == old(approvals) && search == old(search)
    {
      showApproval := None;
    }

    /** The search box. */
    method SetSearch(text: string)
      modifies this
      ensures search == text
      ensures assets == old(assets) && approvals == old(approvals) && showApproval == old(showApproval)
    {
      search := text;
    }
  }

  /** Through the dialog's buttons (one per approval role), an asset goes under repair at
      the agreement that completes the set of roles, and not before. */
  lemma UnderRepairExactlyWhenAllAgreed(list: seq<string>, role: string)
    requires Seqs.Distinct(list) && (forall r :: r in list ==> r in ApprovalRoles) && role in ApprovalRoles
    ensures var next := if role in list then list else list + [role];
            |next| == |ApprovalRoles| <==> forall r :: r in ApprovalRoles ==> r in next
  {
    var next := if role in list then list else list + [role];
    assert Seqs.Distinct(next);
    CountMeansEveryone(next);
  }
}
