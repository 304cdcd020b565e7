/**
 Placement of members: the materialised path and depth that are written once, next to the sponsor
 pointers they repeat.
 */
module Membership {
  import opened Prelude

  type TenantId = nat
  type UserId = nat

  /** A member id as the database prints it: hyphens, no dot, no underscore. */
  type MemberUuid = s: string | UuidText(s) witness "0"

  predicate UuidText(s: string) {
    s != [] && forall i :: 0 <= i < |s| ==> s[i] != '.' && s[i] != '_'
  }

  datatype Member = Member(
    tenant: TenantId, user: UserId, sponsor: Option<MemberUuid>, referralCode: string, depth: nat, path: string, active: bool)

  type Members = map<MemberUuid, Member>

  /** The columns of the sponsor that a caller passes on. */
  datatype Sponsor = Sponsor(id: MemberUuid, tenant: TenantId, depth: nat, path: string)

  datatype PlaceError = OtherTenant | UniqueViolation | MissingSponsor | NoReferralCode | MemberNotFound

  const MAX_ATTEMPTS: nat := 5

  // ------------------------------------------------------------------ labels and paths

  /** Replaces every hyphen by an underscore. */
  function LtreeLabel(id: string): (text: string)
    ensures |text| == |id|
    ensures forall i :: 0 <= i < |id| ==> text[i] == if id[i] == '-' then '_' else id[i]
  {
    seq(|id|, i requires 0 <= i < |id| => if id[i] == '-' then '_' else id[i])
  }

  predicate NoDot(s: string) {
    forall i :: 0 <= i < |s| ==> s[i] != '.'
  }

  /** Different ids have different labels, and no label contains the separator. */
  lemma LabelsTellApart(a: MemberUuid, b: MemberUuid)
    ensures NoDot(LtreeLabel(a))
    ensures LtreeLabel(a) == LtreeLabel(b) ==> a == b
  {
    if LtreeLabel(a) == LtreeLabel(b) {
      forall i | 0 <= i < |a| ensures a[i] == b[i] {
        assert LtreeLabel(a)[i] == LtreeLabel(b)[i];
      }
    }
  }

  function ChildPath(parent: string, id: MemberUuid): string {
    parent + "." + LtreeLabel(id)
  }

  // ------------------------------------------------------------------ the forest

  predicate PlacedAt(rows: Members, m: MemberUuid)
    requires m in rows
  {
    match rows[m].sponsor
    case None => rows[m].depth == 0 && rows[m].path == LtreeLabel(m)
    case Some(s) =>
      && s in rows && rows[s].tenant == rows[m].tenant
      && rows[m].depth == rows[s].depth + 1
      && rows[m].path == ChildPath(rows[s].path, m)
  }

  /** Every row repeats the path and depth of its sponsor. */
  ghost predicate Placed(rows: Members) {
    forall m {:trigger PlacedAt(rows, m)} :: m in rows ==> PlacedAt(rows, m)
  }

  /** `a` is reached from `m` by following sponsors, zero or more times. */
  ghost predicate Reaches(rows: Members, m: MemberUuid, a: MemberUuid)
    requires Placed(rows) && m in rows
    decreases rows[m].depth
  {
    assert PlacedAt(rows, m);
    m == a || (rows[m].sponsor.Some? && Reaches(rows, rows[m].sponsor.value, a))
  }

  /** The members from the root down to `m`. */
  ghost function Ancestry(rows: Members, m: MemberUuid): (ids: seq<MemberUuid>)
    requires Placed(rows) && m in rows
    ensures |ids| == rows[m].depth + 1 && ids[|ids| - 1] == m
    ensures forall i :: 0 <= i < |ids| ==> ids[i] in rows
    decreases rows[m].depth
  {
    assert PlacedAt(rows, m);
    if rows[m].sponsor.None? then [m] else Ancestry(rows, rows[m].sponsor.value) + [m]
  }

  /** Labels joined by dots. */
  function JoinLabels(ids: seq<MemberUuid>): string
    requires ids != []
  {
    if |ids| == 1 then LtreeLabel(ids[0]) else ChildPath(JoinLabels(ids[..|ids| - 1]), ids[|ids| - 1])
  }

  /** The stored path is the labels of all ancestors, root first; the stored depth is one less than their number. */
  lemma {:induction false} PathIsAncestry(rows: Members, m: MemberUuid)
    requires Placed(rows) && m in rows
    ensures rows[m].path == JoinLabels(Ancestry(rows, m))
    ensures rows[m].depth == |Ancestry(rows, m)| - 1
    decreases rows[m].depth
  {
    assert PlacedAt(rows, m);
    if rows[m].sponsor.Some? {
      var s := rows[m].sponsor.value;
      PathIsAncestry(rows, s);
      assert Ancestry(rows, m)[..|Ancestry(rows, m)| - 1] == Ancestry(rows, s);
    }
  }

  /** Being reached is having one's ancestry as a prefix, label by label. */
  lemma {:induction false} ReachesIsPrefix(rows: Members, m: MemberUuid, a: MemberUuid)
    requires Placed(rows) && m in rows && a in rows
    ensures Reaches(rows, m, a) <==> Ancestry(rows, a) <= Ancestry(rows, m)
    decreases rows[m].depth
  {
    assert PlacedAt(rows, m);
    var am, aa := Ancestry(rows, m), Ancestry(rows, a);
    assert am[|am| - 1] == m && aa[|aa| - 1] == a;
    assert |aa| == |am| && aa <= am ==> aa == am;
    if m != a && rows[m].sponsor.Some? {
      var s := rows[m].sponsor.value;
      ReachesIsPrefix(rows, s, a);
      assert am == Ancestry(rows, s) + [m];
      assert aa <= am && |aa| < |am| ==> aa <= Ancestry(rows, s);
    }
  }

  // ------------------------------------------------------------------ the string test

  /** parent.path === focus.path || parent.path.startsWith(focus.path + ".") */
  predicate WithinBranch(path: string, focus: string) {
    path == focus || focus + "." <= path
  }

  /** The last dot of a path is the one before its own label. */
  lemma DotsBeforeLabel(parent: string, id: MemberUuid, i: nat)
    requires i < |ChildPath(parent, id)| && ChildPath(parent, id)[i] == '.'
    ensures i <= |parent|
  {
    LabelsTellApart(id, id);
    forall j | |parent| < j < |ChildPath(parent, id)| ensures ChildPath(parent, id)[j] != '.' {
      assert ChildPath(parent, id)[j] == LtreeLabel(id)[j - |parent| - 1];
    }
  }

  /** Only a root's path has no dot. */
  lemma RootsHaveNoDot(rows: Members, m: MemberUuid)
    requires Placed(rows) && m in rows
    ensures NoDot(rows[m].path) <==> rows[m].sponsor.None?
  {
    assert PlacedAt(rows, m);
    LabelsTellApart(m, m);
    if rows[m].sponsor.Some? {
      assert rows[m].path[|rows[rows[m].sponsor.value].path|] == '.';
    }
  }

  lemma ChildPathsEqual(p: string, a: MemberUuid, q: string, b: MemberUuid)
    requires ChildPath(p, a) == ChildPath(q, b)
    ensures p == q && a == b
  {
    assert ChildPath(p, a)[|p|] == '.' && ChildPath(q, b)[|q|] == '.';
    DotsBeforeLabel(q, b, |p|);
    DotsBeforeLabel(p, a, |q|);
    assert ChildPath(p, a)[..|p|] == p && ChildPath(q, b)[..|q|] == q;
    assert ChildPath(p, a)[|p| + 1..] == LtreeLabel(a) && ChildPath(q, b)[|q| + 1..] == LtreeLabel(b);
    LabelsTellApart(a, b);
  }

  /** No two members share a path. */
  lemma PathsTellApart(rows: Members, m: MemberUuid, a: MemberUuid)
    requires Placed(rows) && m in rows && a in rows && rows[m].path == rows[a].path
    ensures m == a
  {
    assert PlacedAt(rows, m) && PlacedAt(rows, a);
    LabelsTellApart(m, a);
    RootsHaveNoDot(rows, m);
    RootsHaveNoDot(rows, a);
    if rows[m].sponsor.Some? {
      ChildPathsEqual(rows[rows[m].sponsor.value].path, m, rows[rows[a].sponsor.value].path, a);
    }
  }

  lemma PrefixTrans(a: string, b: string, c: string)
    requires a <= b && b <= c
    ensures a <= c
  {}

  lemma {:induction false} ReachedIsWithin(rows: Members, m: MemberUuid, a: MemberUuid)
    requires Placed(rows) && m in rows && a in rows && Reaches(rows, m, a)
    ensures WithinBranch(rows[m].path, rows[a].path)
    decreases rows[m].depth
  {
    assert PlacedAt(rows, m);
    if m != a {
      var s := rows[m].sponsor.value;
      ReachedIsWithin(rows, s, a);
      var sp, fp := rows[s].path, rows[a].path;
      assert sp + "." <= rows[m].path;
      if sp != fp {
        PrefixTrans(fp + ".", sp, sp + ".");
        PrefixTrans(fp + ".", sp + ".", rows[m].path);
      }
    }
  }

  lemma {:induction false} WithinIsReached(rows: Members, m: MemberUuid, a: MemberUuid)
    requires Placed(rows) && m in rows && a in rows && WithinBranch(rows[m].path, rows[a].path)
    ensures Reaches(rows, m, a)
    decreases rows[m].depth
  {
    assert PlacedAt(rows, m);
    var fp := rows[a].path;
    if rows[m].path == fp {
      PathsTellApart(rows, m, a);
    } else {
      assert rows[m].path[|fp|] == '.';
      RootsHaveNoDot(rows, m);
      var s := rows[m].sponsor.value;
      var sp := rows[s].path;
      DotsBeforeLabel(sp, m, |fp|);
      assert rows[m].path[..|sp|] == sp;
      if |fp| == |sp| {
        assert fp == sp;
        PathsTellApart(rows, s, a);
      } else {
        assert fp + "." <= sp;
      }
      WithinIsReached(rows, s, a);
    }
  }

  /**
   The string test on materialised paths, the prefix of labels, and the walk along sponsor pointers
   answer the same question.
   */
  lemma BranchTestIsReach(rows: Members, m: MemberUuid, a: MemberUuid)
    requires Placed(rows) && m in rows && a in rows
    ensures WithinBranch(rows[m].path, rows[a].path) <==> Reaches(rows, m, a)
    ensures Ancestry(rows, a) <= Ancestry(rows, m) <==> Reaches(rows, m, a)
  {
    if Reaches(rows, m, a) {
      ReachedIsWithin(rows, m, a);
    }
    if WithinBranch(rows[m].path, rows[a].path) {
      WithinIsReached(rows, m, a);
    }
    ReachesIsPrefix(rows, m, a);
  }

  // ------------------------------------------------------------------ placing members

  /** A code is free for the tenant. */
  predicate CodeFree(rows: Members, tenant: TenantId, code: string) {
    forall m :: m in rows ==> !(rows[m].tenant == tenant && rows[m].referralCode == code)
  }

  predicate UserFree(rows: Members, tenant: TenantId, user: UserId) {
    forall m :: m in rows ==> !(rows[m].tenant == tenant && rows[m].user == user)
  }

  /** The insert of the first free code among the drawn ones; other violations end the call. */
  function InsertMember(rows: Members, id: MemberUuid, row: Member, codes: seq<string>): Result<Member, PlaceError> {
    if codes == [] then Err(NoReferralCode)
    else if id in rows || !UserFree(rows, row.tenant, row.user) then Err(UniqueViolation)
    else if row.sponsor.Some? && row.sponsor.value !in rows then Err(MissingSponsor)
    else if CodeFree(rows, row.tenant, codes[0]) then Ok(row.(referralCode := codes[0]))
    else InsertMember(rows, id, row, codes[1..])
  }

  function UnderRow(tenant: TenantId, user: UserId, id: MemberUuid, sponsor: Sponsor): Member {
    Member(tenant, user, Some(sponsor.id), "", sponsor.depth + 1, ChildPath(sponsor.path, id), true)
  }

  function RootRow(tenant: TenantId, user: UserId, id: MemberUuid): Member {
    Member(tenant, user, None, "", 0, LtreeLabel(id), true)
  }

  /** The sponsor columns are those of a stored row, if there is one. */
  predicate ReadFrom(rows: Members, sponsor: Sponsor) {
    sponsor.id in rows ==>
      rows[sponsor.id].tenant == sponsor.tenant && rows[sponsor.id].depth == sponsor.depth && rows[sponsor.id].path == sponsor.path
  }

  lemma {:induction false} InsertedRow(rows: Members, id: MemberUuid, row: Member, codes: seq<string>)
    ensures var r := InsertMember(rows, id, row, codes);
            r.Ok? ==>
              && id !in rows && UserFree(rows, row.tenant, row.user) && (row.sponsor.Some? ==> row.sponsor.value in rows)
              && r.value == row.(referralCode := r.value.referralCode)
              && CodeFree(rows, row.tenant, r.value.referralCode) && r.value.referralCode in codes
  {
    if codes != [] {
      InsertedRow(rows, id, row, codes[1..]);
    }
  }

  ghost predicate UserPlaced(rows: Members, tenant: TenantId, user: UserId) {
    exists m :: m in rows && rows[m].tenant == tenant && rows[m].user == user
  }

  ghost predicate CodeTaken(rows: Members, tenant: TenantId, code: string) {
    exists m :: m in rows && rows[m].tenant == tenant && rows[m].referralCode == code
  }

  /** The first of the drawn codes that no member of the tenant has. */
  ghost predicate FirstFree(rows: Members, tenant: TenantId, codes: seq<string>, k: int) {
    0 <= k < |codes| && !CodeTaken(rows, tenant, codes[k]) && forall j :: 0 <= j < k ==> CodeTaken(rows, tenant, codes[j])
  }

  ghost predicate AllTaken(rows: Members, tenant: TenantId, codes: seq<string>) {
    forall j :: 0 <= j < |codes| ==> CodeTaken(rows, tenant, codes[j])
  }

  lemma FreeIsUntaken(rows: Members, tenant: TenantId, user: UserId, code: string)
    ensures UserFree(rows, tenant, user) <==> !UserPlaced(rows, tenant, user)
    ensures CodeFree(rows, tenant, code) <==> !CodeTaken(rows, tenant, code)
  {}

  lemma FirstFreeLater(rows: Members, tenant: TenantId, codes: seq<string>, k: int)
    requires codes != [] && CodeTaken(rows, tenant, codes[0]) && FirstFree(rows, tenant, codes[1..], k)
    ensures FirstFree(rows, tenant, codes, k + 1)
  {
    forall j | 0 <= j < k + 1 ensures CodeTaken(rows, tenant, codes[j]) {
      assert j > 0 ==> codes[j] == codes[1..][j - 1];
    }
  }

  /** When an insert is refused how: before any code is tried, or because every drawn code is taken. */
  lemma {:induction false} InsertRefused(rows: Members, id: MemberUuid, row: Member, codes: seq<string>)
    requires codes != []
    ensures var r := InsertMember(rows, id, row, codes);
            && (r == Err(UniqueViolation) <==> id in rows || UserPlaced(rows, row.tenant, row.user))
            && (r == Err(MissingSponsor) <==>
                  id !in rows && !UserPlaced(rows, row.tenant, row.user) && row.sponsor.Some? && row.sponsor.value !in rows)
            && (r == Err(NoReferralCode) <==>
                  && id !in rows && !UserPlaced(rows, row.tenant, row.user) && (row.sponsor.Some? ==> row.sponsor.value in rows)
                  && AllTaken(rows, row.tenant, codes))
            && (r.Err? ==> r.error in {UniqueViolation, MissingSponsor, NoReferralCode})
  {
    FreeIsUntaken(rows, row.tenant, row.user, codes[0]);
    if |codes| == 1 {
      assert codes[1..] == [];
    } else {
      InsertRefused(rows, id, row, codes[1..]);
      assert forall j :: 0 < j < |codes| ==> codes[j] == codes[1..][j - 1];
      assert AllTaken(rows, row.tenant, codes) ==> AllTaken(rows, row.tenant, codes[1..]) by {
        assert forall j :: 0 <= j < |codes| - 1 ==> codes[1..][j] == codes[j + 1];
      }
    }
  }

  /** An accepted row is the given one with the first free code. */
  lemma {:induction false} InsertAccepted(rows: Members, id: MemberUuid, row: Member, codes: seq<string>)
    requires InsertMember(rows, id, row, codes).Ok?
    ensures exists k :: FirstFree(rows, row.tenant, codes, k) && InsertMember(rows, id, row, codes).value == row.(referralCode := codes[k])
  {
    FreeIsUntaken(rows, row.tenant, row.user, codes[0]);
    if CodeFree(rows, row.tenant, codes[0]) {
      assert FirstFree(rows, row.tenant, codes, 0);
    } else {
      InsertAccepted(rows, id, row, codes[1..]);
      var k :| FirstFree(rows, row.tenant, codes[1..], k) && InsertMember(rows, id, row, codes[1..]).value == row.(referralCode := codes[1..][k]);
      FirstFreeLater(rows, row.tenant, codes, k);
      assert codes[1..][k] == codes[k + 1];
    }
  }

  /** Adding a placed row at the edge moves nobody. */
  lemma PlaceKeeps(rows: Members, id: MemberUuid, row: Member)
    requires Placed(rows) && id !in rows && PlacedAt(rows[id := row], id)
    requires row.sponsor.Some? ==> row.sponsor.value in rows
    ensures Placed(rows[id := row])
  {
    var rows' := rows[id := row];
    forall m | m in rows' ensures PlacedAt(rows', m) {
      if m != id {
        assert PlacedAt(rows, m);
      }
    }
  }

  /** The memberships table, with the service's two ways to insert. */
  class MembershipsTable {
    var rows: Members

    ghost predicate Valid()
      reads this
    {
      Placed(rows)
    }

    constructor ()
      ensures Valid() && rows == map[]
    {
      rows := map[];
    }

    /** The bounded retry loop of both inserts: a new referral code each time. */
    method Insert(id: MemberUuid, row: Member, codes: seq<string>) returns (r: Result<Member, PlaceError>)
      requires |codes| == MAX_ATTEMPTS
      modifies this
      ensures r == InsertMember(old(rows), id, row, codes)
      ensures rows == if r.Ok? then old(rows)[id := r.value] else old(rows)
    {
      var attempt := 0;
      while attempt < MAX_ATTEMPTS
        invariant attempt <= MAX_ATTEMPTS && rows == old(rows)
        invariant InsertMember(rows, id, row, codes) == InsertMember(rows, id, row, codes[attempt..])
      {
        if id in rows || !UserFree(rows, row.tenant, row.user) {
          return Err(UniqueViolation);
        }
        if row.sponsor.Some? && row.sponsor.value !in rows {
          return Err(MissingSponsor);
        }
        if CodeFree(rows, row.tenant, codes[attempt]) {
          var stored := row.(referralCode := codes[attempt]);
          rows := rows[id := stored];
          return Ok(stored);
        }
        attempt := attempt + 1;
      }
      r := Err(NoReferralCode);
    }

    method CreateUnder(tenant: TenantId, user: UserId, sponsor: Sponsor, id: MemberUuid, codes: seq<string>)
      returns (r: Result<Member, PlaceError>)
      requires Valid() && |codes| == MAX_ATTEMPTS && ReadFrom(rows, sponsor)
      modifies this
      ensures Valid()
      ensures r == if sponsor.tenant != tenant then Err(OtherTenant) else InsertMember(old(rows), id, UnderRow(tenant, user, id, sponsor), codes)
      ensures rows == if r.Ok? then old(rows)[id := r.value] else old(rows)
      ensures r.Ok? ==> sponsor.tenant == tenant && sponsor.id in old(rows) && id !in old(rows)
                        && r.value == Member(tenant, user, Some(sponsor.id), r.value.referralCode, sponsor.depth + 1,
                                             sponsor.path + "." + LtreeLabel(id), true)
    {
      if sponsor.tenant != tenant {
        return Err(OtherTenant);
      }
      var row := UnderRow(tenant, user, id, sponsor);
      InsertedRow(rows, id, row, codes);
      ghost var before := rows;
      r := Insert(id, row, codes);
      if r.Ok? {
        PlaceKeeps(before, id, r.value);
      }
    }

    method CreateRoot(tenant: TenantId, user: UserId, id: MemberUuid, codes: seq<string>) returns (r: Result<Member, PlaceError>)
      requires Valid() && |codes| == MAX_ATTEMPTS
      modifies this
      ensures Valid()
      ensures r == InsertMember(old(rows), id, RootRow(tenant, user, id), codes)
      ensures rows == if r.Ok? then old(rows)[id := r.value] else old(rows)
      ensures r.Ok? ==> id !in old(rows) && r.value == Member(tenant, user, None, r.value.referralCode, 0, LtreeLabel(id), true)
    {
      var row := RootRow(tenant, user, id);
      InsertedRow(rows, id, row, codes);
      ghost var before := rows;
      r := Insert(id, row, codes);
      if r.Ok? {
        PlaceKeeps(before, id, r.value);
      }
    }
  }

  // ------------------------------------------------------------------ upline chain

  datatype Link = Link(id: MemberUuid, active: bool)

  /** The i-th member above, counted from the end of the line. */
  predicate LinkAt(rows: Members, line: seq<MemberUuid>, i: nat, x: Link) {
    i < |line| && x.id == line[|line| - 1 - i] && x.id in rows && x.active == rows[x.id].active
  }

  ghost predicate UplineOf(rows: Members, seller: MemberUuid, depth: nat, chain: seq<Link>)
    requires Placed(rows) && seller in rows
  {
    var line := Ancestry(rows, seller);
    && |chain| == (if depth <= |line| then depth else |line|)
    && (forall i :: 0 <= i < |chain| ==> LinkAt(rows, line, i, chain[i]))
  }

  /** The walk itself, as a function: at most `depth` members from `current` upward. */
  ghost function Uplines(rows: Members, current: Option<MemberUuid>, depth: nat): seq<Link>
    requires Placed(rows) && (current.Some? ==> current.value in rows)
    decreases depth
  {
    if depth == 0 || current.None? then []
    else
      assert PlacedAt(rows, current.value);
      [Link(current.value, rows[current.value].active)] + Uplines(rows, rows[current.value].sponsor, depth - 1)
  }

  /** One step of the walk. */
  lemma UplinesStep(rows: Members, m: MemberUuid, depth: nat)
    requires Placed(rows) && m in rows && depth > 0
    ensures rows[m].sponsor.Some? ==> rows[m].sponsor.value in rows
    ensures Uplines(rows, Some(m), depth) == [Link(m, rows[m].active)] + Uplines(rows, rows[m].sponsor, depth - 1)
  {
    assert PlacedAt(rows, m);
  }

  lemma {:induction false} UplinesLength(rows: Members, m: MemberUuid, depth: nat)
    requires Placed(rows) && m in rows
    ensures |Uplines(rows, Some(m), depth)| == if depth <= rows[m].depth + 1 then depth else rows[m].depth + 1
    decreases depth
  {
    assert PlacedAt(rows, m);
    if depth > 0 && rows[m].sponsor.Some? {
      UplinesLength(rows, rows[m].sponsor.value, depth - 1);
    }
  }

  lemma {:induction false} UplinesAt(rows: Members, m: MemberUuid, depth: nat, i: nat)
    requires Placed(rows) && m in rows && i < |Uplines(rows, Some(m), depth)|
    ensures LinkAt(rows, Ancestry(rows, m), i, Uplines(rows, Some(m), depth)[i])
    decreases depth
  {
    UplinesStep(rows, m, depth);
    assert PlacedAt(rows, m);
    if i > 0 && rows[m].sponsor.Some? {
      UplinesAt(rows, rows[m].sponsor.value, depth - 1, i - 1);
    }
  }

  lemma UplinesMeaning(rows: Members, m: MemberUuid, depth: nat)
    requires Placed(rows) && m in rows
    ensures UplineOf(rows, m, depth, Uplines(rows, Some(m), depth))
  {
    UplinesLength(rows, m, depth);
    forall i | 0 <= i < |Uplines(rows, Some(m), depth)|
      ensures LinkAt(rows, Ancestry(rows, m), i, Uplines(rows, Some(m), depth)[i])
    {
      UplinesAt(rows, m, depth, i);
    }
  }

  /** One turn of the loop moves a link from the rest of the walk to the chain. */
  lemma UplinesOn(rows: Members, seller: MemberUuid, depth: nat, chain: seq<Link>, id: MemberUuid)
    requires Placed(rows) && id in rows && |chain| < depth
    ensures rows[id].sponsor.Some? ==> rows[id].sponsor.value in rows
    ensures chain + Uplines(rows, Some(id), depth - |chain|)
            == (chain + [Link(id, rows[id].active)]) + Uplines(rows, rows[id].sponsor, depth - |chain| - 1)
  {
    UplinesStep(rows, id, depth - |chain|);
  }

  /**
   Follows sponsors upward, at most `depth` members: the last `depth` members of the path, or all of
   them, nearest first. A stored seller never meets a missing row.
   */
  method UplineChain(rows: Members, seller: MemberUuid, depth: nat) returns (r: Result<seq<Link>, PlaceError>)
    requires Placed(rows)
    ensures r.Err? <==> depth > 0 && seller !in rows
    ensures r.Err? ==> r.error == MemberNotFound
    ensures r.Ok? && seller in rows ==> UplineOf(rows, seller, depth, r.value)
  {
    var chain: seq<Link> := [];
    var current: Option<MemberUuid> := Some(seller);
    while |chain| < depth && current.Some?
      invariant |chain| <= depth
      invariant seller !in rows ==> chain == [] && current == Some(seller)
      invariant seller in rows && current.Some? ==> current.value in rows
      invariant seller in rows ==> chain + Uplines(rows, current, depth - |chain|) == Uplines(rows, Some(seller), depth)
      decreases depth - |chain|
    {
      var id := current.value;
      if id !in rows {
        return Err(MemberNotFound);
      }
      UplinesOn(rows, seller, depth, chain, id);
      chain := chain + [Link(id, rows[id].active)];
      current := rows[id].sponsor;
    }
    if seller in rows {
      UplinesMeaning(rows, seller, depth);
      assert chain == chain + Uplines(rows, current, depth - |chain|);
    }
    r := Ok(chain);
  }

  // ------------------------------------------------------------------ sequences of placements

  datatype Placement =
    | Under(tenant: TenantId, user: UserId, sponsorId: MemberUuid, id: MemberUuid, codes: seq<string>)
    | Root(tenant: TenantId, user: UserId, id: MemberUuid, codes: seq<string>)
    | SetActive(id: MemberUuid, active: bool)

  /** The table after one call: sponsors are read from it, placement columns are never updated. */
  function PlaceNext(rows: Members, p: Placement): Members {
    match p
    case Under(t, u, sid, id, codes) =>
      if sid !in rows || rows[sid].tenant != t then rows
      else
        var r := InsertMember(rows, id, UnderRow(t, u, id, Sponsor(sid, rows[sid].tenant, rows[sid].depth, rows[sid].path)), codes);
        if r.Ok? then rows[id := r.value] else rows
    case Root(t, u, id, codes) =>
      var r := InsertMember(rows, id, RootRow(t, u, id), codes);
      if r.Ok? then rows[id := r.value] else rows
    case SetActive(id, active) => if id in rows then rows[id := rows[id].(active := active)] else rows
  }

  function PlaceAll(ps: seq<Placement>): Members {
    if ps == [] then map[] else PlaceNext(PlaceAll(ps[..|ps| - 1]), ps[|ps| - 1])
  }

  lemma ActiveKeeps(rows: Members, id: MemberUuid, active: bool)
    requires Placed(rows) && id in rows
    ensures Placed(rows[id := rows[id].(active := active)])
  {
    var rows' := rows[id := rows[id].(active := active)];
    forall m | m in rows' ensures PlacedAt(rows', m) {
      assert PlacedAt(rows, m);
    }
  }

  /** After any sequence of placements the paths and depths repeat the sponsor pointers. */
  lemma {:induction false} PlacementsPlaced(ps: seq<Placement>)
    ensures Placed(PlaceAll(ps))
  {
    if ps != [] {
      PlacementsPlaced(ps[..|ps| - 1]);
      var rows := PlaceAll(ps[..|ps| - 1]);
      match ps[|ps| - 1]
      case Under(t, u, sid, id, codes) =>
        if sid in rows {
          var row := UnderRow(t, u, id, Sponsor(sid, rows[sid].tenant, rows[sid].depth, rows[sid].path));
          InsertedRow(rows, id, row, codes);
          if rows[sid].tenant == t && InsertMember(rows, id, row, codes).Ok? {
            PlaceKeeps(rows, id, InsertMember(rows, id, row, codes).value);
          }
        }
      case Root(t, u, id, codes) =>
        InsertedRow(rows, id, RootRow(t, u, id), codes);
        if InsertMember(rows, id, RootRow(t, u, id), codes).Ok? {
          PlaceKeeps(rows, id, InsertMember(rows, id, RootRow(t, u, id), codes).value);
        }
      case SetActive(id, active) =>
        if id in rows {
          ActiveKeeps(rows, id, active);
        }
    }
  }

  /** The path laws, after any sequence of placements. */
  lemma PathsAfterPlacements(ps: seq<Placement>, m: MemberUuid, a: MemberUuid)
    requires m in PlaceAll(ps) && a in PlaceAll(ps)
    ensures Placed(PlaceAll(ps))
    ensures var rows := PlaceAll(ps);
            && rows[m].path == JoinLabels(Ancestry(rows, m)) && rows[m].depth == |Ancestry(rows, m)| - 1
            && (WithinBranch(rows[m].path, rows[a].path) <==> Reaches(rows, m, a))
            && (Ancestry(rows, a) <= Ancestry(rows, m) <==> Reaches(rows, m, a))
  {
    PlacementsPlaced(ps);
    PathIsAncestry(PlaceAll(ps), m);
    BranchTestIsReach(PlaceAll(ps), m, a);
  }
}
