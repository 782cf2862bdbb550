/** The write fields the script lists where its lists survive a turn of the row loop, and that they are lawful. */
module LedgerWording {
  import opened LedgerRows

  const EVIDENCE_WRITES: seq<string> := [
    "evidence.display_permission", "evidence.gallery_display_eligibility", "evidence.anchor_set_pointer",
    "evidence.anchor_set_source_version", "evidence.anchor_set_count", "evidence.anchor_set_digest"]

  const CORRECTION_WRITES: seq<string> := [
    "correction.material_clue_invalidation", "correction.summary_activity_invalidation",
    "correction.generated_hero_invalidation", "correction.supplemental_information_invalidation",
    "correction.situation_graph_invalidation", "correction.world_model_invalidation",
    "correction.source_retention_invalidation"]

  /** Shipped with these lists, a script never appends a field that the same branch drops. */
  lemma ShippedIsLawful(script: Script)
    requires script.evidenceWrites == EVIDENCE_WRITES && script.correctionWrites == CORRECTION_WRITES
    ensures Lawful(script)
  {
    forall value | value in EVIDENCE_WRITES
      ensures NotEligibility(value)
    {
      assert value[9] != 'v';
    }
    forall value | value in CORRECTION_WRITES
      ensures NotVisualIntent(value)
    {
      assert value[11] != 'c';
    }
  }
}
