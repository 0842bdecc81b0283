/**
 * What an account may do under a DAO's roles.
 */
module Permissions {
  import opened Wrappers

  datatype ProposalType =
    ChangeConfig | ChangePolicy | AddMemberToRole | RemoveMemberFromRole | FunctionCall | UpgradeSelf | UpgradeRemote
    | Transfer | SetStakingContract | AddBounty | BountyDone | Vote

  function PolicyLabel(t: ProposalType): string {
    match t
    case ChangeConfig => "config"
    case ChangePolicy => "policy"
    case AddMemberToRole => "add_member_to_role"
    case RemoveMemberFromRole => "remove_member_from_role"
    case FunctionCall => "call"
    case UpgradeSelf => "upgrade_self"
    case UpgradeRemote => "upgrade_remote"
    case Transfer => "transfer"
    case SetStakingContract => "set_vote_token"
    case AddBounty => "add_bounty"
    case BountyDone => "bounty_done"
    case Vote => "vote"
  }

  datatype RoleKind = Everyone | Member | Group

  // A null balance counts as 0; without a balance (None) no account has enough.
  datatype Role = Role(name: string, kind: RoleKind, accountIds: Option<seq<string>>, balance: Option<int>,
                       permissions: seq<string>)

  datatype ProposalPermissions = ProposalPermissions(isCouncil: bool, canApprove: bool, canReject: bool,
                                                     canDelete: bool, canAdd: bool)

  const NOTHING := ProposalPermissions(false, false, false, false, false)

  // No letter outside A-Z has a lower case among the letters of "council".
  function Lower(name: string): string {
    seq(|name|, i requires 0 <= i < |name| =>
      if 'A' <= name[i] <= 'Z' then (name[i] as int + 32) as char else name[i])
  }

  predicate IsCouncil(role: Role) {
    Lower(role.name) == "council"
  }

  function FindCouncil(roles: seq<Role>): Option<Role> {
    if roles == [] then None else if IsCouncil(roles[0]) then Some(roles[0]) else FindCouncil(roles[1..])
  }

  // A caller that gives no balance never gets a role by balance.
  predicate Applies(role: Role, accountId: string, balance: Option<int>) {
    match role.kind
    case Everyone => true
    case Group => role.accountIds.Some? && accountId in role.accountIds.value
    case Member => balance.Some? && role.balance.Some? && balance.value >= role.balance.value
  }

  function PermissionsOf(roles: seq<Role>, accountId: string, balance: Option<int>): seq<string> {
    if roles == [] then []
    else
      var last := roles[|roles| - 1];
      PermissionsOf(roles[..|roles| - 1], accountId, balance)
      + if Applies(last, accountId, balance) then last.permissions else []
  }

  predicate Allows(permission: string, t: ProposalType, action: string) {
    permission == "*:*" || permission == "*:" + action || permission == PolicyLabel(t) + ":" + action
  }

  function CheckPermissions(t: ProposalType, action: string, permissions: seq<string>): bool {
    "*:*" in permissions || ("*:" + action) in permissions || (PolicyLabel(t) + ":" + action) in permissions
  }

  predicate GroupsListed(roles: seq<Role>) {
    forall role :: role in roles && role.kind.Group? ==> role.accountIds.Some?
  }

  // It throws on a group without a list of accounts.
  function GetAccountPermissions(roles: seq<Role>, t: ProposalType, accountId: string,
                                 balance: Option<int>): Outcome<ProposalPermissions>
  {
    if accountId == "" then Returns(NOTHING)
    else if !GroupsListed(roles) then Throws
    else
      var council := FindCouncil(roles);
      var permissions := PermissionsOf(roles, accountId, balance);
      Returns(ProposalPermissions(
        council.Some? && council.value.accountIds.Some? && accountId in council.value.accountIds.value,
        CheckPermissions(t, "VoteApprove", permissions),
        CheckPermissions(t, "VoteReject", permissions),
        CheckPermissions(t, "VoteRemove", permissions),
        CheckPermissions(t, "AddProposal", permissions)))
  }

  lemma {:induction false} PermissionsOfMembers(roles: seq<Role>, accountId: string, balance: Option<int>, p: string)
    ensures p in PermissionsOf(roles, accountId, balance) <==> exists role ::
      role in roles && Applies(role, accountId, balance) && p in role.permissions
  {
    if roles != [] {
      var last := roles[|roles| - 1];
      PermissionsOfMembers(roles[..|roles| - 1], accountId, balance, p);
      assert roles == roles[..|roles| - 1] + [last];
    }
  }

  // The labels of the contract's permission strings.
  const LABELS: map<ProposalType, string> := map[
    ChangeConfig := "config", ChangePolicy := "policy", AddMemberToRole := "add_member_to_role",
    RemoveMemberFromRole := "remove_member_from_role", FunctionCall := "call", UpgradeSelf := "upgrade_self",
    UpgradeRemote := "upgrade_remote", Transfer := "transfer", SetStakingContract := "set_vote_token",
    AddBounty := "add_bounty", BountyDone := "bounty_done", Vote := "vote"]

  // Everyone has a role for everyone, the listed accounts that of a group, and whoever has the balance that of members.
  ghost predicate Has(role: Role, accountId: string, balance: Option<int>) {
    || role.kind == Everyone
    || (role.kind == Group && exists ids :: role.accountIds == Some(ids) && accountId in ids)
    || (role.kind == Member && exists b, least :: balance == Some(b) && role.balance == Some(least) && least <= b)
  }

  // A role that the account has holds a permission for the action, on this type of proposal or on all.
  ghost predicate MayDo(roles: seq<Role>, accountId: string, balance: Option<int>, t: ProposalType, action: string) {
    exists role, topic, verb ::
      && role in roles && Has(role, accountId, balance) && topic + ":" + verb in role.permissions
      && ((topic == "*" && verb in {"*", action}) || (t in LABELS && topic == LABELS[t] && verb == action))
  }

  lemma AppliesMeans(role: Role, accountId: string, balance: Option<int>)
    ensures Applies(role, accountId, balance) <==> Has(role, accountId, balance)
  {}

  lemma AllowsMeans(p: string, t: ProposalType, action: string)
    ensures Allows(p, t, action) <==>
      exists topic: string, verb: string ::
        && p == topic + ":" + verb
        && ((topic == "*" && verb in {"*", action}) || (t in LABELS && topic == LABELS[t] && verb == action))
  {
    assert PolicyLabel(t) == LABELS[t];
    assert "*:*" == "*" + ":" + "*" && "*:" + action == "*" + ":" + action;
    hide PolicyLabel;
  }

  lemma MayDoMeans(roles: seq<Role>, accountId: string, balance: Option<int>, t: ProposalType, action: string)
    ensures MayDo(roles, accountId, balance, t, action)
      <==> exists role, p ::
        role in roles && Applies(role, accountId, balance) && p in role.permissions && Allows(p, t, action)
  {
    hide Applies, Has, Allows;
    if MayDo(roles, accountId, balance, t, action) {
      var role, topic, verb :|
        && role in roles && Has(role, accountId, balance) && topic + ":" + verb in role.permissions
        && ((topic == "*" && verb in {"*", action}) || (t in LABELS && topic == LABELS[t] && verb == action));
      AppliesMeans(role, accountId, balance);
      AllowsMeans(topic + ":" + verb, t, action);
    }
    if role, p :| role in roles && Applies(role, accountId, balance) && p in role.permissions && Allows(p, t, action) {
      AppliesMeans(role, accountId, balance);
      AllowsMeans(p, t, action);
    }
  }

  // No permission for one type of proposal allows anything on another.
  lemma LabelsTellApart(t: ProposalType, u: ProposalType, action: string, other: string)
    requires ':' !in action && ':' !in other
    ensures PolicyLabel(t) + ":" + action == PolicyLabel(u) + ":" + other <==> t == u && action == other
  {
    var p, q := PolicyLabel(t) + ":" + action, PolicyLabel(u) + ":" + other;
    LabelHasNoColon(t);
    LabelHasNoColon(u);
    hide PolicyLabel;
    if p == q {
      var n, m := |PolicyLabel(t)|, |PolicyLabel(u)|;
      assert p[n] == ':' == q[m];
      assert forall i :: 0 <= i < n ==> p[i] == PolicyLabel(t)[i] && PolicyLabel(t)[i] in PolicyLabel(t);
      assert forall i :: 0 <= i < m ==> q[i] == PolicyLabel(u)[i] && PolicyLabel(u)[i] in PolicyLabel(u);
      assert n == m && p[..n] == PolicyLabel(t) && q[..m] == PolicyLabel(u);
      assert p[n + 1..] == action && q[m + 1..] == other;
      LabelsDiffer(t, u);
    }
  }

  lemma LabelHasNoColon(t: ProposalType)
    ensures ':' !in PolicyLabel(t)
  {}

  lemma LabelsDiffer(t: ProposalType, u: ProposalType)
    ensures PolicyLabel(t) == PolicyLabel(u) ==> t == u
  {}

  lemma CheckAllows(t: ProposalType, action: string, permissions: seq<string>)
    ensures CheckPermissions(t, action, permissions) <==> exists p :: p in permissions && Allows(p, t, action)
  {
    hide PolicyLabel;
    if CheckPermissions(t, action, permissions) {
      var p := if "*:*" in permissions then "*:*" else if ("*:" + action) in permissions then "*:" + action
        else PolicyLabel(t) + ":" + action;
      assert p in permissions && Allows(p, t, action);
    }
  }

  lemma CheckMeans(roles: seq<Role>, accountId: string, balance: Option<int>, t: ProposalType, action: string)
    ensures CheckPermissions(t, action, PermissionsOf(roles, accountId, balance)) <==>
      MayDo(roles, accountId, balance, t, action)
  {
    hide CheckPermissions, PermissionsOf, Applies, Allows, MayDo;
    MayDoMeans(roles, accountId, balance, t, action);
    var permissions := PermissionsOf(roles, accountId, balance);
    forall p
      ensures p in permissions <==> exists role ::
        role in roles && Applies(role, accountId, balance) && p in role.permissions
    {
      PermissionsOfMembers(roles, accountId, balance, p);
    }
    CheckAllows(t, action, permissions);
  }

  // "council" in letters of either case.
  ghost predicate NamedCouncil(role: Role) {
    |role.name| == 7 && forall i :: 0 <= i < 7 ==> role.name[i] == "council"[i] || role.name[i] == "COUNCIL"[i]
  }

  lemma IsCouncilMeans(role: Role)
    ensures IsCouncil(role) <==> NamedCouncil(role)
  {
    var name, lower := role.name, Lower(role.name);
    if IsCouncil(role) {
      forall i | 0 <= i < 7 ensures name[i] == "council"[i] || name[i] == "COUNCIL"[i] {
        assert lower[i] == "council"[i];
      }
    }
    if NamedCouncil(role) {
      forall i | 0 <= i < 7 ensures lower[i] == "council"[i] {
        assert name[i] == "council"[i] || name[i] == "COUNCIL"[i];
      }
      assert lower == "council";
    }
  }

  ghost predicate FirstCouncil(roles: seq<Role>, k: nat) {
    k < |roles| && NamedCouncil(roles[k]) && forall j :: 0 <= j < k ==> !NamedCouncil(roles[j])
  }

  ghost predicate InCouncil(roles: seq<Role>, accountId: string) {
    exists k: nat :: FirstCouncil(roles, k) && roles[k].accountIds.Some? && accountId in roles[k].accountIds.value
  }

  lemma {:induction false} FindCouncilFinds(roles: seq<Role>)
    ensures FindCouncil(roles).None? <==> forall j :: 0 <= j < |roles| ==> !NamedCouncil(roles[j])
    ensures forall k: nat :: FirstCouncil(roles, k) ==> FindCouncil(roles) == Some(roles[k])
  {
    hide NamedCouncil, IsCouncil;
    if roles != [] {
      IsCouncilMeans(roles[0]);
      FindCouncilFinds(roles[1..]);
      assert forall j :: 1 <= j < |roles| ==> roles[j] == roles[1..][j - 1];
      forall k: nat | FirstCouncil(roles, k) ensures FindCouncil(roles) == Some(roles[k]) {
        if k > 0 {
          assert FirstCouncil(roles[1..], k - 1);
        }
      }
    }
  }

  // An account is council exactly if the first role so called lists it, and may do what some role that applies to
  // it permits; without an account nothing is allowed.
  lemma PermissionsMean(roles: seq<Role>, t: ProposalType, accountId: string, balance: Option<int>)
    requires GroupsListed(roles) || accountId == ""
    ensures GetAccountPermissions(roles, t, accountId, balance).Returns?
    ensures var r := GetAccountPermissions(roles, t, accountId, balance).value;
      && (r.isCouncil <==> accountId != "" && InCouncil(roles, accountId))
      && (r.canApprove <==> accountId != "" && MayDo(roles, accountId, balance, t, "VoteApprove"))
      && (r.canReject <==> accountId != "" && MayDo(roles, accountId, balance, t, "VoteReject"))
      && (r.canDelete <==> accountId != "" && MayDo(roles, accountId, balance, t, "VoteRemove"))
      && (r.canAdd <==> accountId != "" && MayDo(roles, accountId, balance, t, "AddProposal"))
  {
    hide CheckPermissions, MayDo, FindCouncil;
    CheckMeans(roles, accountId, balance, t, "VoteApprove");
    CheckMeans(roles, accountId, balance, t, "VoteReject");
    CheckMeans(roles, accountId, balance, t, "VoteRemove");
    CheckMeans(roles, accountId, balance, t, "AddProposal");
    FindCouncilFinds(roles);
    if FindCouncil(roles).Some? {
      CouncilExists(roles);
      var k: nat :| FirstCouncil(roles, k);
    }
  }

  lemma {:induction false} CouncilExists(roles: seq<Role>)
    requires FindCouncil(roles).Some?
    ensures exists k: nat :: FirstCouncil(roles, k)
  {
    hide NamedCouncil, IsCouncil;
    IsCouncilMeans(roles[0]);
    if IsCouncil(roles[0]) {
      assert FirstCouncil(roles, 0);
    } else {
      CouncilExists(roles[1..]);
      var k: nat :| FirstCouncil(roles[1..], k);
      assert forall j :: 1 <= j < k + 1 ==> roles[j] == roles[1..][j - 1];
      assert FirstCouncil(roles, k + 1);
    }
  }
}
