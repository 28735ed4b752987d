/** Which preview fields a user may edit: constant field sets and the editability rule. */
module Provenance {
  import opened Options

  const EDITABLE_PROVENANCE: set<string> := {"MISSING", "HIS", "MANUAL"}

  const LOW_CONFIDENCE: real := 0.60

  const ALWAYS_EDITABLE: set<string> :=
    {"reference", "category", "notes_to_firs", "payment_terms_note", "terms", "transaction_type"}

  const IDENTITY_FIELDS: set<string> := {
    "invoice_id", "helium_invoice_no", "invoice_number", "irn", "csid", "csid_status",
    "invoice_trace_id", "user_trace_id", "x_trace_id"}

  const AMOUNT_AND_DATE_FIELDS: set<string> := {
    "subtotal", "tax_amount", "total_amount", "wht_amount", "discount_amount",
    "tax_exclusive_amount", "total_tax_amount", "exchange_rate",
    "issue_date", "issue_time", "sign_date", "transmission_date", "acknowledgement_date"}

  const STATUS_FIELDS: set<string> := {
    "direction", "document_type", "document_currency_code", "tax_currency_code",
    "workflow_status", "transmission_status", "transmission_status_error", "payment_status",
    "inbound_status", "firs_confirmation", "firs_response_data", "qr_code_data",
    "retry_count", "last_retry_at", "next_retry_at"}

  const AUDIT_FIELDS: set<string> := {
    "created_at", "updated_at", "deleted_at", "deleted_by", "created_by", "finalized_at",
    "processing_started_at", "processing_completed_at", "processing_duration_ms"}

  const CONTEXT_FIELDS: set<string> := {
    "machine_guid", "mac_address", "computer_name", "float_id", "session_id",
    "helium_user_id", "user_email", "user_name",
    "queue_id", "batch_id", "file_id", "blob_uuid", "original_filename",
    "source", "source_id", "config_version_id", "schema_version_applied"}

  const NEVER_EDITABLE: set<string> :=
    IDENTITY_FIELDS + AMOUNT_AND_DATE_FIELDS + STATUS_FIELDS + AUDIT_FIELDS + CONTEXT_FIELDS

  const SELLER_FIELDS: set<string> := {
    "seller_id", "seller_business_id", "seller_name", "seller_tin", "seller_tax_id",
    "seller_rc_number", "seller_email", "seller_phone", "seller_address", "seller_city",
    "seller_postal_code", "seller_lga_code", "seller_state_code", "seller_country_code", "company_id"}

  const BUYER_FIELDS: set<string> := {
    "buyer_id", "buyer_business_id", "buyer_name", "buyer_tin", "buyer_tax_id",
    "buyer_rc_number", "buyer_email", "buyer_phone", "buyer_address", "buyer_city",
    "buyer_postal_code", "buyer_lga_code", "buyer_state_code", "buyer_country_code"}

  const NEVER_EDITABLE_ITEM: set<string> := {
    "line_id", "invoice_id", "line_number", "description", "quantity", "unit_price", "line_total",
    "tax_rate", "tax_amount", "product_id", "product_code", "product_name",
    "classification_confidence", "classification_source", "created_at"}

  const CLASSIFICATION: set<string> :=
    {"hsn_code", "service_code", "product_category", "service_category", "line_item_type"}

  const B2B_B2G: set<string> := {"B2B", "B2G"}

  /** Keys of a row that the diff leaves out. */
  const SKIP_INVOICE: set<string> := {"line_items", "__provenance__", "__IS_NEW__", "_row_index"}

  const SKIP_ITEM: set<string> := {"__provenance__", "__IS_NEW__"}

  /** The tenant's own party: seller when outbound, buyer when inbound. */
  function TenantFields(direction: string): set<string> {
    if direction == "OUTBOUND" then SELLER_FIELDS
    else if direction == "INBOUND" then BUYER_FIELDS
    else {}
  }

  /** Missing provenance, editable provenance, or low confidence opens a field. */
  predicate ProvenanceOpens(provenance: Option<string>, confidence: Option<real>) {
    || provenance.None?
    || provenance.value in EDITABLE_PROVENANCE
    || (confidence.Some? && confidence.value < LOW_CONFIDENCE)
  }

  predicate IsFieldEditable(field: string, provenance: Option<string>, confidence: Option<real>,
                            direction: string, isLineItem: bool)
  {
    if isLineItem then
      if field in NEVER_EDITABLE_ITEM then false
      else if field in CLASSIFICATION then ProvenanceOpens(provenance, confidence)
      else false
    else if field in ALWAYS_EDITABLE then true
    else if field in NEVER_EDITABLE then false
    else if field in TenantFields(direction) then false
    else ProvenanceOpens(provenance, confidence)
  }

  predicate Protected(field: string, direction: string) {
    field in NEVER_EDITABLE || field in TenantFields(direction)
  }

  /** A mark by length and one letter that tells the always-editable and the skipped names
      from the protected ones. */
  predicate Marked(name: string) {
    || (|name| == 9 && name[0] == 'r') || (|name| == 8 && name[0] == 'c')
    || (|name| == 13 && name[2] == 't') || (|name| == 18 && name[0] == 'p')
    || |name| == 5 || (|name| == 16 && name[1] == 'r')
    || (|name| == 10 && name[0] == 'l') || (|name| > 0 && name[0] == '_')
  }

  lemma SkippedIsMarked(name: string)
    requires name in SKIP_INVOICE
    ensures Marked(name)
  {
  }

  lemma AlwaysEditableIsMarked(name: string)
    requires name in ALWAYS_EDITABLE
    ensures Marked(name)
  {
  }

  lemma IdentityUnmarked(name: string)
    requires name in IDENTITY_FIELDS
    ensures !Marked(name)
  {
  }

  lemma AmountsAndDatesUnmarked(name: string)
    requires name in AMOUNT_AND_DATE_FIELDS
    ensures !Marked(name)
  {
  }

  lemma StatusUnmarked(name: string)
    requires name in STATUS_FIELDS
    ensures !Marked(name)
  {
  }

  lemma AuditUnmarked(name: string)
    requires name in AUDIT_FIELDS
    ensures !Marked(name)
  {
  }

  lemma ContextUnmarked(name: string)
    requires name in CONTEXT_FIELDS
    ensures !Marked(name)
  {
  }

  lemma NeverEditableIsUnmarked(name: string)
    requires name in NEVER_EDITABLE
    ensures !Marked(name)
  {
    if name in IDENTITY_FIELDS { IdentityUnmarked(name); }
    else if name in AMOUNT_AND_DATE_FIELDS { AmountsAndDatesUnmarked(name); }
    else if name in STATUS_FIELDS { StatusUnmarked(name); }
    else if name in AUDIT_FIELDS { AuditUnmarked(name); }
    else { ContextUnmarked(name); }
  }

  lemma SellerIsUnmarked(name: string)
    requires name in SELLER_FIELDS
    ensures !Marked(name)
  {
  }

  lemma BuyerIsUnmarked(name: string)
    requires name in BUYER_FIELDS
    ensures !Marked(name)
  {
  }

  lemma ProtectedIsUnmarked(field: string, direction: string)
    requires Protected(field, direction)
    ensures !Marked(field)
  {
    if field in NEVER_EDITABLE { NeverEditableIsUnmarked(field); }
    else if direction == "OUTBOUND" { SellerIsUnmarked(field); }
    else { BuyerIsUnmarked(field); }
  }

  /** No always-editable field is among the protected ones: the order in which the sets are
      tested does not matter. And the diff skips no protected field. */
  lemma AlwaysEditableIsApart(field: string, direction: string)
    ensures field in ALWAYS_EDITABLE || field in SKIP_INVOICE ==> !Protected(field, direction)
  {
    if (field in ALWAYS_EDITABLE || field in SKIP_INVOICE) && Protected(field, direction) {
      if field in ALWAYS_EDITABLE { AlwaysEditableIsMarked(field); } else { SkippedIsMarked(field); }
      ProtectedIsUnmarked(field, direction);
    }
  }

  /** The counterparty fields an upgrade to B2B or B2G demands. */
  function UpgradeFields(direction: string): set<string> {
    if direction == "OUTBOUND" then {"buyer_tin", "buyer_name"} else {"seller_tin", "seller_name"}
  }

  /** A mark of party fields by two letters. */
  predicate PartyMark(name: string) {
    |name| > 2 && ((name[0] == 'b' && name[1] == 'u') || (name[0] == 's' && name[2] == 'l'))
  }

  lemma IdentityNoParty(name: string)
    requires name in IDENTITY_FIELDS
    ensures !PartyMark(name)
  {
  }

  lemma AmountsAndDatesNoParty(name: string)
    requires name in AMOUNT_AND_DATE_FIELDS
    ensures !PartyMark(name)
  {
  }

  lemma StatusNoParty(name: string)
    requires name in STATUS_FIELDS
    ensures !PartyMark(name)
  {
  }

  lemma AuditNoParty(name: string)
    requires name in AUDIT_FIELDS
    ensures !PartyMark(name)
  {
  }

  lemma ContextNoParty(name: string)
    requires name in CONTEXT_FIELDS
    ensures !PartyMark(name)
  {
  }

  lemma BuyerMark(name: string)
    requires name in BUYER_FIELDS
    ensures name[0] == 'b'
  {
  }

  lemma SellerMark(name: string)
    requires name in SELLER_FIELDS
    ensures name[0] != 'b'
  {
  }

  lemma NeverEditableNoParty(name: string)
    requires name in NEVER_EDITABLE
    ensures !PartyMark(name)
  {
    if name in IDENTITY_FIELDS { IdentityNoParty(name); }
    else if name in AMOUNT_AND_DATE_FIELDS { AmountsAndDatesNoParty(name); }
    else if name in STATUS_FIELDS { StatusNoParty(name); }
    else if name in AUDIT_FIELDS { AuditNoParty(name); }
    else { ContextNoParty(name); }
  }

  lemma UpgradeFieldMark(field: string, direction: string)
    requires field in UpgradeFields(direction)
    ensures PartyMark(field) && (direction == "OUTBOUND" <==> field[0] == 'b')
  {
  }

  /** What an upgrade demands belongs to the other party: no field of it is protected, so a
      missing one can be supplied unless its provenance forbids. */
  lemma UpgradeFieldsAreNotProtected(field: string, direction: string)
    requires field in UpgradeFields(direction)
    ensures !Protected(field, direction)
  {
    UpgradeFieldMark(field, direction);
    if field in NEVER_EDITABLE { NeverEditableNoParty(field); }
    if direction == "OUTBOUND" && field in SELLER_FIELDS { SellerMark(field); }
    if direction == "INBOUND" && field in BUYER_FIELDS { BuyerMark(field); }
  }
}
