/**
 The multi-tenant backfill: identities and memberships from users, and one owner per
 account elected in two passes.  `emailKey` is lower(email); role, account and creation
 time are copied from user to membership.
 */
module TenantBackfill {
  import opened Wrappers

  datatype User = User(id: string, emailKey: string, passwordHash: string, accountId: nat, role: string, createdAt: int)

  datatype Identity = Identity(id: string, emailKey: string, passwordHash: string)

  datatype Membership = Membership(identityId: string, accountId: nat, role: string, isOwner: bool, createdAt: int)

  datatype Failure = DuplicateEmail | IdentityCount | MembershipCount | Orphans | BadOwner | EmptyPassword

  /** SELECT lower(email) ... HAVING count(*) > 1 finds nothing. */
  predicate NoDuplicates(users: seq<User>) {
    forall i, j :: 0 <= i < j < |users| ==> users[i].emailKey != users[j].emailKey
  }

  // ---- DISTINCT ON (account_id) ... ORDER BY account_id, created_at

  /** `chosen` holds, for each account with an eligible row, one of its earliest eligible rows. */
  ghost predicate IsElection(ms: seq<Membership>, eligible: set<nat>, chosen: set<nat>) {
    && chosen <= eligible && (forall i :: i in eligible ==> i < |ms|)
    && (forall i, j :: i in chosen && j in eligible && ms[i].accountId == ms[j].accountId ==>
          ms[i].createdAt <= ms[j].createdAt)
    && (forall i, j :: i in chosen && j in chosen && ms[i].accountId == ms[j].accountId ==> i == j)
    && (forall j :: j in eligible ==> exists i :: i in chosen && ms[i].accountId == ms[j].accountId)
  }

  /** The earliest eligible row of each account among the first k rows. */
  ghost predicate IsBest(ms: seq<Membership>, eligible: set<nat>, k: nat, best: map<nat, nat>) {
    && k <= |ms|
    && (forall a :: a in best ==> best[a] in eligible && best[a] < k && ms[best[a]].accountId == a)
    && (forall j :: j in eligible && j < k ==>
          ms[j].accountId in best && ms[best[ms[j].accountId]].createdAt <= ms[j].createdAt)
  }

  lemma BestIsElection(ms: seq<Membership>, eligible: set<nat>, best: map<nat, nat>)
    requires IsBest(ms, eligible, |ms|, best) && forall i :: i in eligible ==> i < |ms|
    ensures IsElection(ms, eligible, set a | a in best :: best[a])
  {
  }

  method DistinctOnAccount(ms: seq<Membership>, eligible: set<nat>) returns (chosen: set<nat>)
    requires forall i :: i in eligible ==> i < |ms|
    ensures IsElection(ms, eligible, chosen)
  {
    var best: map<nat, nat> := map[];
    var k := 0;
    while k < |ms|
      invariant IsBest(ms, eligible, k, best)
    {
      if k in eligible && (ms[k].accountId !in best || ms[k].createdAt < ms[best[ms[k].accountId]].createdAt) {
        best := best[ms[k].accountId := k];
      }
      k := k + 1;
    }
    BestIsElection(ms, eligible, best);
    chosen := set a | a in best :: best[a];
  }

  // ---- the two ownership updates

  /** SET is_owner = TRUE for the chosen rows. */
  function MarkOwners(ms: seq<Membership>, chosen: set<nat>): (r: seq<Membership>)
    ensures |r| == |ms|
    ensures forall i :: 0 <= i < |ms| ==> r[i] == if i in chosen then ms[i].(isOwner := true) else ms[i]
  {
    seq(|ms|, i requires 0 <= i < |ms| => if i in chosen then ms[i].(isOwner := true) else ms[i])
  }

  /** SET is_owner = TRUE, role = 'admin' for the chosen rows. */
  function Promote(ms: seq<Membership>, chosen: set<nat>): (r: seq<Membership>)
    ensures |r| == |ms|
    ensures forall i :: 0 <= i < |ms| ==> r[i] == if i in chosen then ms[i].(isOwner := true, role := "admin") else ms[i]
  {
    seq(|ms|, i requires 0 <= i < |ms| => if i in chosen then ms[i].(isOwner := true, role := "admin") else ms[i])
  }

  function Admins(ms: seq<Membership>): set<nat> {
    set i | 0 <= i < |ms| && ms[i].role == "admin"
  }

  function OwnedAccounts(ms: seq<Membership>): set<nat> {
    set m | m in ms && m.isOwner :: m.accountId
  }

  function Ownerless(ms: seq<Membership>): set<nat> {
    set i | 0 <= i < |ms| && ms[i].accountId !in OwnedAccounts(ms)
  }

  /** count(*) FILTER (WHERE is_owner) of one account. */
  function OwnerCount(ms: seq<Membership>, account: nat): nat {
    if ms == [] then 0
    else (if ms[0].accountId == account && ms[0].isOwner then 1 else 0) + OwnerCount(ms[1..], account)
  }

  lemma {:induction false} NoOwnerCount(ms: seq<Membership>, account: nat)
    requires forall i :: 0 <= i < |ms| && ms[i].accountId == account ==> !ms[i].isOwner
    ensures OwnerCount(ms, account) == 0
  {
    if ms != [] {
      NoOwnerCount(ms[1..], account);
    }
  }

  /** Exactly one owning row means a count of one. */
  lemma {:induction false} OneOwnerCount(ms: seq<Membership>, account: nat, owner: nat)
    requires owner < |ms| && ms[owner].accountId == account && ms[owner].isOwner
    requires forall i :: 0 <= i < |ms| && ms[i].accountId == account && ms[i].isOwner ==> i == owner
    ensures OwnerCount(ms, account) == 1
  {
    if owner == 0 {
      NoOwnerCount(ms[1..], account);
    } else {
      OneOwnerCount(ms[1..], account, owner - 1);
    }
  }

  /** Row `owner` is the elected owner of its account: its earliest admin, else its earliest member. */
  ghost predicate RightfulOwner(ms: seq<Membership>, owner: nat) {
    && owner < |ms|
    && if exists i :: 0 <= i < |ms| && ms[i].accountId == ms[owner].accountId && ms[i].role == "admin" then
         ms[owner].role == "admin"
         && forall i :: 0 <= i < |ms| && ms[i].accountId == ms[owner].accountId && ms[i].role == "admin" ==>
              ms[owner].createdAt <= ms[i].createdAt
       else
         forall i :: 0 <= i < |ms| && ms[i].accountId == ms[owner].accountId ==> ms[owner].createdAt <= ms[i].createdAt
  }

  ghost predicate NoOwners(ms: seq<Membership>) {
    forall i :: 0 <= i < |ms| ==> !ms[i].isOwner
  }

  /** After the first pass exactly the chosen admins own. */
  lemma FirstPass(ms: seq<Membership>, c1: set<nat>)
    requires NoOwners(ms) && IsElection(ms, Admins(ms), c1)
    ensures OwnedAccounts(MarkOwners(ms, c1)) == set i | i in c1 :: ms[i].accountId
  {
  }

  lemma EarliestAdminIsRightful(ms: seq<Membership>, c1: set<nat>, i: nat)
    requires IsElection(ms, Admins(ms), c1) && i in c1
    ensures RightfulOwner(ms, i) && ms[i].role == "admin"
  {
  }

  lemma EarliestMemberIsRightful(ms: seq<Membership>, c1: set<nat>, c2: set<nat>, i: nat)
    requires NoOwners(ms) && IsElection(ms, Admins(ms), c1)
    requires IsElection(MarkOwners(ms, c1), Ownerless(MarkOwners(ms, c1)), c2) && i in c2
    ensures RightfulOwner(ms, i) && (forall k :: k in c1 ==> ms[k].accountId != ms[i].accountId)
  {
    FirstPass(ms, c1);
    var ms1 := MarkOwners(ms, c1);
    assert ms1[i].accountId !in OwnedAccounts(ms1);
    assert forall k :: k in c1 ==> ms[k].accountId != ms[i].accountId;
    forall k | 0 <= k < |ms| && ms[k].accountId == ms[i].accountId
      ensures ms[k].role != "admin" && ms[i].createdAt <= ms[k].createdAt
    {
      assert k !in Admins(ms);
      assert k in Ownerless(ms1);
    }
  }

  /** In each account exactly one row is chosen, in one of the passes. */
  lemma ChosenRow(ms: seq<Membership>, c1: set<nat>, c2: set<nat>, j: nat) returns (owner: nat)
    requires NoOwners(ms) && IsElection(ms, Admins(ms), c1)
    requires IsElection(MarkOwners(ms, c1), Ownerless(MarkOwners(ms, c1)), c2)
    requires j < |ms|
    ensures owner in c1 + c2 && owner < |ms| && ms[owner].accountId == ms[j].accountId
    ensures forall i :: i in c1 + c2 && i < |ms| && ms[i].accountId == ms[j].accountId ==> i == owner
  {
    FirstPass(ms, c1);
    var ms1 := MarkOwners(ms, c1);
    var account := ms[j].accountId;
    assert forall k :: k in c2 ==> k < |ms| && ms1[k].accountId == ms[k].accountId && ms[k].accountId !in OwnedAccounts(ms1);
    if i :| i in c1 && ms[i].accountId == account {
      owner := i;
    } else {
      assert j in Ownerless(ms1);
      owner :| owner in c2 && ms1[owner].accountId == ms1[j].accountId;
    }
  }

  /**
   The election, for every way DISTINCT ON may break ties: each account with a membership has
   exactly one owner, the rightful one, who is an admin; no other row changes at all.
   */
  lemma OwnerElection(ms: seq<Membership>, c1: set<nat>, c2: set<nat>, j: nat) returns (owner: nat)
    requires NoOwners(ms) && IsElection(ms, Admins(ms), c1)
    requires IsElection(MarkOwners(ms, c1), Ownerless(MarkOwners(ms, c1)), c2)
    requires j < |ms|
    ensures var out := Promote(MarkOwners(ms, c1), c2);
            && owner < |ms| && ms[owner].accountId == ms[j].accountId
            && RightfulOwner(ms, owner)
            && out[owner] == ms[owner].(isOwner := true, role := "admin")
            && (forall i :: 0 <= i < |ms| && ms[i].accountId == ms[j].accountId && i != owner ==> out[i] == ms[i])
            && OwnerCount(out, ms[j].accountId) == 1
  {
    owner := ChosenRow(ms, c1, c2, j);
    if owner in c1 {
      EarliestAdminIsRightful(ms, c1, owner);
    } else {
      EarliestMemberIsRightful(ms, c1, c2, owner);
    }
    var out := Promote(MarkOwners(ms, c1), c2);
    forall i | 0 <= i < |ms| && ms[i].accountId == ms[j].accountId && i != owner ensures out[i] == ms[i] {
      assert i !in c1 + c2;
    }
    OneOwnerCount(out, ms[j].accountId, owner);
  }

  // ---- the whole backfill

  /** INSERT INTO identities: one per distinct e-mail, the earliest user's. */
  predicate IsEarliest(users: seq<User>, i: nat)
    requires i < |users|
  {
    forall j :: 0 <= j < |users| && users[j].emailKey == users[i].emailKey ==>
      users[i].createdAt < users[j].createdAt || (users[i].createdAt == users[j].createdAt && i <= j)
  }

  function IdentityOf(u: User): Identity {
    Identity(u.id, u.emailKey, u.passwordHash)
  }

  function MembershipOf(u: User): Membership {
    Membership(u.id, u.accountId, u.role, false, u.createdAt)
  }

  lemma {:induction false} DistinctKeys(users: seq<User>)
    requires NoDuplicates(users)
    ensures |set u | u in users :: u.emailKey| == |users|
  {
    var keys := set u | u in users :: u.emailKey;
    if users == [] {
      assert keys == {};
    } else {
      var front, last := users[..|users| - 1], users[|users| - 1];
      DistinctKeys(front);
      var fronts := set u | u in front :: u.emailKey;
      assert users == front + [last];
      assert keys == fronts + {last.emailKey};
      assert last.emailKey !in fronts;
    }
  }

  /** One identity per user, in order. */
  predicate OneEach(users: seq<User>, identities: seq<Identity>) {
    |identities| == |users| && forall i :: 0 <= i < |users| ==>
      identities[i] == Identity(users[i].id, users[i].emailKey, users[i].passwordHash)
  }

  class Migration {
    var identities: seq<Identity>
    var memberships: seq<Membership>

    constructor ()
      ensures identities == [] && memberships == []
    {
      identities, memberships := [], [];
    }

    method InsertIdentities(users: seq<User>)
      requires identities == []
      modifies `identities
      ensures NoDuplicates(users) ==> OneEach(users, identities)
    {
      var i := 0;
      while i < |users|
        invariant 0 <= i <= |users|
        invariant NoDuplicates(users) ==> OneEach(users[..i], identities)
      {
        if IsEarliest(users, i) {
          identities := identities + [IdentityOf(users[i])];
        }
        i := i + 1;
      }
    }

    /** INSERT INTO memberships ... FROM users JOIN identities ON the e-mail. */
    method InsertMemberships(users: seq<User>)
      requires memberships == []
      modifies `memberships
      ensures NoDuplicates(users) && OneEach(users, identities) ==> memberships == Inserted(users)
    {
      ghost var oneEach := NoDuplicates(users) && OneEach(users, identities);
      var i := 0;
      while i < |users|
        invariant 0 <= i <= |users|
        invariant oneEach ==> |memberships| == i && forall k :: 0 <= k < i ==> memberships[k] == MembershipOf(users[k])
      {
        var u := users[i];
        var k := 0;
        while k < |identities|
          invariant 0 <= k <= |identities|
          invariant oneEach ==> |memberships| == (if k <= i then i else i + 1)
          invariant oneEach ==> forall n :: 0 <= n < |memberships| ==> memberships[n] == MembershipOf(users[n])
        {
          if identities[k].emailKey == u.emailKey {
            memberships := memberships + [Membership(identities[k].id, u.accountId, u.role, false, u.createdAt)];
          }
          k := k + 1;
        }
        i := i + 1;
      }
    }

    /**
     upgrade(): the duplicate check, the inserts, the two ownership passes and the post-checks.
     Only the duplicate check and the password check can raise; the count, orphan and owner
     checks never do.
     */
    method Upgrade(users: seq<User>) returns (r: Result<nat, Failure>)
      requires identities == [] && memberships == []
      modifies this
      ensures r.Err? && r.error == DuplicateEmail <==> !NoDuplicates(users)
      ensures r.Err? && r.error == EmptyPassword <==> NoDuplicates(users) && exists u :: u in users && u.passwordHash == ""
      ensures r.Err? ==> r.error == DuplicateEmail || r.error == EmptyPassword
      ensures !NoDuplicates(users) ==> identities == [] && memberships == []
      ensures NoDuplicates(users) ==>
        && OneEach(users, identities) && |memberships| == |users|
        && (forall j :: 0 <= j < |users| ==> Settled(users, memberships, j))
    {
      if !NoDuplicates(users) {
        return Err(DuplicateEmail);
      }
      InsertIdentities(users);
      InsertMemberships(users);
      assert memberships == Inserted(users);
      ElectOwners(users);
      r := PostChecks(users);
    }

    /** The migration runs in one transaction: what upgrade() raises rolls its tables back. */
    method RunMigration(users: seq<User>) returns (r: Result<nat, Failure>)
      requires identities == [] && memberships == []
      modifies this
      ensures r.Ok? <==> NoDuplicates(users) && forall u :: u in users ==> u.passwordHash != ""
      ensures r.Err? ==> identities == [] && memberships == []
      ensures r.Ok? ==>
        && OneEach(users, identities) && |memberships| == |users|
        && (forall j :: 0 <= j < |users| ==> Settled(users, memberships, j))
    {
      var before := (identities, memberships);
      r := Upgrade(users);
      if r.Err? {
        identities, memberships := before.0, before.1;
      }
    }

    /** The two UPDATE statements. */
    method ElectOwners(users: seq<User>)
      requires memberships == Inserted(users)
      modifies `memberships
      ensures |memberships| == |users| && forall j :: 0 <= j < |users| ==>
        && memberships[j].identityId == users[j].id && memberships[j].accountId == users[j].accountId
        && Settled(users, memberships, j)
    {
      var c1 := DistinctOnAccount(memberships, Admins(memberships));
      memberships := MarkOwners(memberships, c1);
      var c2 := DistinctOnAccount(memberships, Ownerless(memberships));
      memberships := Promote(memberships, c2);
      forall j | 0 <= j < |users| ensures Settled(users, memberships, j) {
        ElectionSettles(users, c1, c2, j);
      }
    }

    /** The post-checks, on tables as the passes leave them. */
    method PostChecks(users: seq<User>) returns (r: Result<nat, Failure>)
      requires NoDuplicates(users) && OneEach(users, identities) && |memberships| == |users|
      requires forall i :: 0 <= i < |users| ==>
        memberships[i].identityId == users[i].id && memberships[i].accountId == users[i].accountId
        && OwnerCount(memberships, users[i].accountId) == 1
      ensures r.Err? ==> r.error == EmptyPassword
      ensures r.Err? <==> exists u :: u in users && u.passwordHash == ""
    {
      DistinctKeys(users);
      if |identities| != |set u | u in users :: u.emailKey| {
        return Err(IdentityCount);
      }
      if |memberships| != |users| {
        return Err(MembershipCount);
      }
      forall u | u in users ensures exists m :: m in memberships && BelongsTo(identities, m, u) {
        var j :| 0 <= j < |users| && users[j] == u;
        assert memberships[j] in memberships && identities[j] in identities;
        assert BelongsTo(identities, memberships[j], u);
      }
      if exists u | u in users :: forall m | m in memberships :: !BelongsTo(identities, m, u) {
        return Err(Orphans);
      }
      forall m | m in memberships ensures OwnerCount(memberships, m.accountId) == 1 {
        var j :| 0 <= j < |users| && memberships[j] == m;
        assert OwnerCount(memberships, users[j].accountId) == 1;
      }
      if exists m | m in memberships :: OwnerCount(memberships, m.accountId) != 1 {
        return Err(BadOwner);
      }
      if exists i | i in identities :: i.passwordHash == "" {
        ghost var k :| 0 <= k < |identities| && identities[k].passwordHash == "";
        assert users[k] in users;
        return Err(EmptyPassword);
      }
      forall u | u in users ensures u.passwordHash != "" {
        var j :| 0 <= j < |users| && users[j] == u;
        assert identities[j] in identities;
      }
      return Ok(|users|);
    }
  }

  /** m is a membership of u's account held by u's identity. */
  predicate BelongsTo(identities: seq<Identity>, m: Membership, u: User) {
    m.accountId == u.accountId && exists i | i in identities :: i.emailKey == u.emailKey && i.id == m.identityId
  }

  /** What the inserts make of the users, before any owner is elected. */
  function Inserted(users: seq<User>): (r: seq<Membership>)
    ensures |r| == |users| && forall i :: 0 <= i < |users| ==>
      r[i] == Membership(users[i].id, users[i].accountId, users[i].role, false, users[i].createdAt)
  {
    seq(|users|, i requires 0 <= i < |users| => MembershipOf(users[i]))
  }

  /** Row j is user j's: every column is copied, but for the role of an owner, who is made admin. */
  predicate RowFrom(users: seq<User>, ms: seq<Membership>, j: nat)
    requires |ms| == |users| && j < |users|
  {
    && ms[j].identityId == users[j].id && ms[j].accountId == users[j].accountId && ms[j].createdAt == users[j].createdAt
    && ms[j].role == (if ms[j].isOwner then "admin" else users[j].role)
  }

  predicate HasAdmin(users: seq<User>, account: nat) {
    exists i :: 0 <= i < |users| && users[i].accountId == account && users[i].role == "admin"
  }

  /** The users an account's owner is chosen from: its admins, or all of its users if it has none. */
  predicate Candidate(users: seq<User>, account: nat, i: nat) {
    i < |users| && users[i].accountId == account && (HasAdmin(users, account) ==> users[i].role == "admin")
  }

  /** User `owner` is the earliest admin of its account, or the earliest user of an account without admins. */
  ghost predicate OwnsByRight(users: seq<User>, owner: nat) {
    && owner < |users| && Candidate(users, users[owner].accountId, owner)
    && forall i: nat :: Candidate(users, users[owner].accountId, i) ==> users[owner].createdAt <= users[i].createdAt
  }

  /** User `owner` owns its account by right, and nobody else there does. */
  ghost predicate OwnsAlone(users: seq<User>, ms: seq<Membership>, owner: nat)
    requires |ms| == |users|
  {
    && OwnsByRight(users, owner)
    && forall i :: 0 <= i < |users| && users[i].accountId == users[owner].accountId ==> (ms[i].isOwner <==> i == owner)
  }

  /** Row j is user j's, and the account of user j has one owner, the rightful one. */
  ghost predicate Settled(users: seq<User>, ms: seq<Membership>, j: nat)
    requires |ms| == |users| && j < |users|
  {
    && RowFrom(users, ms, j)
    && OwnerCount(ms, users[j].accountId) == 1
    && exists owner: nat :: OwnsAlone(users, ms, owner) && users[owner].accountId == users[j].accountId
  }

  lemma RightfulOwnsByRight(users: seq<User>, owner: nat)
    requires RightfulOwner(Inserted(users), owner)
    ensures OwnsByRight(users, owner)
  {
    var ms := Inserted(users);
    assert forall i :: 0 <= i < |users| ==> ms[i].accountId == users[i].accountId && ms[i].role == users[i].role;
  }

  lemma ElectionSettles(users: seq<User>, c1: set<nat>, c2: set<nat>, j: nat)
    requires j < |users| && IsElection(Inserted(users), Admins(Inserted(users)), c1)
    requires IsElection(MarkOwners(Inserted(users), c1), Ownerless(MarkOwners(Inserted(users), c1)), c2)
    ensures Settled(users, Promote(MarkOwners(Inserted(users), c1), c2), j)
  {
    var owner := OwnerElection(Inserted(users), c1, c2, j);
    RightfulOwnsByRight(users, owner);
    assert OwnsAlone(users, Promote(MarkOwners(Inserted(users), c1), c2), owner);
  }
}
