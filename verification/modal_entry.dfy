/**
 * The descriptor of one open modal in the administration's modal registry,
 * and the normalisation `openModal` applies to the payload it receives.
 *
 * The fields typed by the extension SDK (title, the two flags, the variant,
 * the buttons and the response type) are opaque values: the registry only
 * copies them and compares nothing but `locationId`.
 */
module ModalEntry {
  import opened Wrappers

  type Title(==)
  type Flag(==)
  type Variant(==)
  type Button(==)
  type ResponseType(==)

  /**
   * What a caller hands to `openModal`. `buttons` may be missing; a payload
   * built from the SDK's open-modal message may still carry a `responseType`,
   * which the entry type omits.
   */
  datatype ModalPayload = ModalPayload(
    locationId: string,
    title: Title,
    closable: Flag,
    showHeader: Flag,
    variant: Variant,
    baseUrl: string,
    buttons: Option<seq<Button>>,
    responseType: Option<ResponseType>)

  /** A stored entry: `buttons` is always present and there is no `responseType`. */
  datatype ModalItemEntry = ModalItemEntry(
    title: Title,
    closable: Flag,
    showHeader: Flag,
    variant: Variant,
    locationId: string,
    buttons: seq<Button>,
    baseUrl: string)

  /** The entry `openModal` stores for payload `p`. */
  function Normalize(p: ModalPayload): (e: ModalItemEntry)
    ensures e.title == p.title && e.closable == p.closable && e.showHeader == p.showHeader
    ensures e.variant == p.variant && e.locationId == p.locationId && e.baseUrl == p.baseUrl
    ensures p.buttons.None? ==> e.buttons == []
    ensures p.buttons.Some? ==> e.buttons == p.buttons.value
  {
    ModalItemEntry(p.title, p.closable, p.showHeader, p.variant, p.locationId,
                   p.buttons.OrElse([]), p.baseUrl)
  }

  /** The payload that describes a stored entry exactly: buttons given, no response type. */
  function ToPayload(e: ModalItemEntry): (p: ModalPayload)
    ensures p.buttons == Some(e.buttons) && p.responseType == None
    ensures p.locationId == e.locationId
  {
    ModalPayload(e.locationId, e.title, e.closable, e.showHeader, e.variant, e.baseUrl,
                 Some(e.buttons), None)
  }

  /** Every stored entry is what `openModal` makes of its own payload. */
  lemma NormalizeToPayload(e: ModalItemEntry)
    ensures Normalize(ToPayload(e)) == e
  {
  }

  /**
   * Normalisation loses exactly the missing-buttons marker and the response
   * type: a payload is recovered from its entry if and only if it had buttons
   * and no response type.
   */
  lemma ToPayloadNormalize(p: ModalPayload)
    ensures ToPayload(Normalize(p)) == p <==> p.buttons.Some? && p.responseType.None?
  {
  }

  /** Two payloads that differ only in the response type give the same entry. */
  lemma NormalizeIgnoresResponseType(p: ModalPayload, q: ModalPayload)
    requires p.(responseType := None) == q.(responseType := None)
    ensures Normalize(p) == Normalize(q)
  {
  }

  /**
   * A missing `buttons` and an explicit empty list are indistinguishable
   * after normalisation.
   */
  lemma NormalizeMissingButtons(p: ModalPayload)
    ensures Normalize(p.(buttons := None)) == Normalize(p.(buttons := Some([])))
  {
  }
}
