/**
 The Hubla event names: the official catalogue, the legacy aliases and their normalisation,
 and the migration that renames stored trigger events one UPDATE at a time.
 */
module EventTypes {
  import opened Renames

  /** The official catalogue. */
  const OFFICIAL: seq<string> := [
    "lead.abandoned_checkout",
    "customer.member_added",
    "customer.member_removed",
    "subscription.created",
    "subscription.activated",
    "subscription.expiring",
    "subscription.deactivated",
    "subscription.renewal_disabled",
    "subscription.renewal_enabled",
    "invoice.created",
    "invoice.status_updated",
    "invoice.payment_succeeded",
    "invoice.payment_failed",
    "invoice.expired",
    "invoice.refunded",
    "smart_installment.created",
    "smart_installment.aborted",
    "smart_installment.on_schedule",
    "smart_installment.off_schedule",
    "smart_installment.canceled",
    "smart_installment.completed",
    "refund_request.created",
    "refund_request.accepted",
    "refund_request.canceled",
    "refund_request.rejected"]

  /** The migration's dictionary of (old name, new name), in its order. */
  const LEGACY: seq<(string, string)> := [
    ("lead.abandoned_cart", "lead.abandoned_checkout"),
    ("member.access_granted", "customer.member_added"),
    ("member.access_removed", "customer.member_removed"),
    ("subscription.expired", "subscription.expiring"),
    ("subscription.auto_renewal_disabled", "subscription.renewal_disabled"),
    ("subscription.auto_renewal_enabled", "subscription.renewal_enabled"),
    ("invoice.payment_completed", "invoice.payment_succeeded"),
    ("installment.created", "smart_installment.created"),
    ("installment.failed", "smart_installment.aborted"),
    ("installment.in_progress", "smart_installment.on_schedule"),
    ("installment.overdue", "smart_installment.off_schedule"),
    ("installment.cancelled", "smart_installment.canceled"),
    ("installment.completed", "smart_installment.completed"),
    ("refund_request.cancelled", "refund_request.canceled")]

  /** The runtime's own copy of the map. */
  const ALIASES: seq<(string, string)> := [
    ("lead.abandoned_cart", "lead.abandoned_checkout"),
    ("member.access_granted", "customer.member_added"),
    ("member.access_removed", "customer.member_removed"),
    ("subscription.expired", "subscription.expiring"),
    ("subscription.auto_renewal_disabled", "subscription.renewal_disabled"),
    ("subscription.auto_renewal_enabled", "subscription.renewal_enabled"),
    ("invoice.payment_completed", "invoice.payment_succeeded"),
    ("installment.created", "smart_installment.created"),
    ("installment.failed", "smart_installment.aborted"),
    ("installment.in_progress", "smart_installment.on_schedule"),
    ("installment.overdue", "smart_installment.off_schedule"),
    ("installment.cancelled", "smart_installment.canceled"),
    ("installment.completed", "smart_installment.completed"),
    ("refund_request.cancelled", "refund_request.canceled")]

  predicate IsOfficial(x: string) {
    x in OFFICIAL
  }

  predicate IsLegacy(x: string) {
    IsOld(ALIASES, x)
  }

  /** The canonical names of access granted. */
  predicate IsActivation(x: string) {
    x == "subscription.activated" || x == "customer.member_added"
  }

  /** normalize_event_type: a dictionary lookup with the name itself as default. */
  function Normalize(x: string): string {
    Lookup(ALIASES, x)
  }

  // ---- the migration

  method Upgrade(rows: array<string>)
    modifies rows
    ensures forall i :: 0 <= i < rows.Length ==> rows[i] == RunUpdates(LEGACY, old(rows[i]))
  {
    RenameAll(rows, LEGACY);
  }

  method Downgrade(rows: array<string>)
    modifies rows
    ensures forall i :: 0 <= i < rows.Length ==> rows[i] == RunUpdates(Swap(LEGACY), old(rows[i]))
  {
    RenameAll(rows, Swap(LEGACY));
  }

  lemma OldNamesDiffer(i: nat, j: nat)
    requires i < j < |LEGACY|
    ensures LEGACY[i].0 != LEGACY[j].0
  {
  }

  lemma NewNamesDiffer(i: nat, j: nat)
    requires i < j < |LEGACY|
    ensures LEGACY[i].1 != LEGACY[j].1
  {
  }

  lemma OldIsNotNew(i: nat, j: nat)
    requires i < |LEGACY| && j < |LEGACY|
    ensures LEGACY[i].0 != LEGACY[j].1
  {
  }

  /** Old names are distinct, new names are distinct, and none is both: the round-trip laws apply. */
  lemma LegacyClean()
    ensures Clean(LEGACY)
  {
    forall i, j | 0 <= i < j < |LEGACY| ensures LEGACY[i].0 != LEGACY[j].0 && LEGACY[i].1 != LEGACY[j].1 {
      OldNamesDiffer(i, j);
      NewNamesDiffer(i, j);
    }
    forall i, j | 0 <= i < |LEGACY| && 0 <= j < |LEGACY| ensures LEGACY[i].0 != LEGACY[j].1 {
      OldIsNotNew(i, j);
    }
  }

  lemma SameMaps()
    ensures LEGACY == ALIASES
  {
  }

  lemma NewIsOfficial(i: nat)
    requires i < |LEGACY|
    ensures IsOfficial(LEGACY[i].1)
  {
  }

  lemma OldIsNotOfficial(i: nat)
    requires i < |LEGACY|
    ensures !IsOfficial(LEGACY[i].0)
  {
  }

  /** The catalogue has 25 names, no two alike. */
  lemma CatalogueIsDistinct(i: nat, j: nat)
    requires i < j < |OFFICIAL|
    ensures |OFFICIAL| == 25 && OFFICIAL[i] != OFFICIAL[j]
  {
  }

  /**
   For every text in the column: the migration applies the runtime map, which is idempotent,
   changes exactly the 14 legacy names, and sends each of them into the official catalogue,
   whose own names it leaves alone.
   */
  lemma MigrationIsNormalize(x: string)
    ensures RunUpdates(LEGACY, x) == Normalize(x)
    ensures Normalize(Normalize(x)) == Normalize(x)
    ensures IsLegacy(x) <==> Normalize(x) != x
    ensures IsLegacy(x) ==> IsOfficial(Normalize(x)) && !IsOfficial(x)
  {
    LegacyClean();
    SameMaps();
    forall i | 0 <= i < |LEGACY| ensures LEGACY[i].1 in OFFICIAL && LEGACY[i].0 !in OFFICIAL {
      NewIsOfficial(i);
      OldIsNotOfficial(i);
    }
    LookupFacts(LEGACY, OFFICIAL, x);
  }

  lemma Renamed(k: nat)
    requires k < |LEGACY|
    ensures Normalize(LEGACY[k].0) == LEGACY[k].1
  {
    LegacyClean();
    SameMaps();
    OldGoesToNew(LEGACY, k);
  }

  lemma OfficialStays(x: string)
    requires IsOfficial(x)
    ensures Normalize(x) == x
  {
    MigrationIsNormalize(x);
  }

  /** The names of access granted that reach the handler. */
  lemma ActivationName(x: string)
    ensures x == "member.access_granted" ==> Normalize(x) == "customer.member_added"
    ensures IsActivation(x) ==> Normalize(x) == x
  {
    if x == "member.access_granted" {
      Renamed(1);
    } else if IsActivation(x) {
      assert x == OFFICIAL[1] || x == OFFICIAL[4];
      OfficialStays(x);
    }
  }
}
