# Modal registry of the Shopware administration

This project models `ModalsStore`, the administration's Vuex module that keeps
the list of open extension modals. The module's state is one list, `modals`,
of `ModalItemEntry` descriptors, and it starts empty. The module has two mutations:

- `openModal` takes a payload. It copies `title`, `closable`, `showHeader`,
  `variant`, `locationId` and `baseUrl`, sets `buttons` to the payload's buttons
  (or `[]` when they are missing), and pushes the entry onto the end of the list.
  It does not look for an existing entry with the same `locationId`.
- `closeModal` replaces the list with the entries whose `locationId` differs
  from the argument, in their original order.

Files:

- `wrappers.dfy` — `Option`, with `OrElse` as the `??` operator.
- `modal_entry.dfy` — the payload and the stored entry. `Normalize` builds the
  entry `openModal` pushes. The fields typed by the extension SDK are opaque
  types that only support equality.
- `modals_store.dfy` — `Without`, the filter `closeModal` applies, with its
  properties. The class `ModalsState` holds the `modals` field, and its methods
  are the two mutations. The file ends with lemmas about opening and closing together.

## Model

| member | source | states |
|---|---|---|
| Wrappers.Option.OrElse | vendor/shopware/administration/Resources/app/administration/src/app/state/modals.store.ts:33 | `x ?? d` gives the held value when there is one and `d` when the value is missing |
| ModalEntry.Normalize | vendor/shopware/administration/Resources/app/administration/src/app/state/modals.store.ts:18-35 | the new entry carries title, closable, showHeader, variant, locationId and baseUrl exactly as given; its buttons are `[]` when the payload has none, and the payload's buttons otherwise |
| ModalEntry.ToPayload | vendor/shopware/administration/Resources/app/administration/src/app/state/modals.store.ts:4 | every entry can be written as a payload that has buttons and no response type |
| ModalEntry.NormalizeToPayload | vendor/shopware/administration/Resources/app/administration/src/app/state/modals.store.ts:4 | normalising the payload of a stored entry gives back that entry, so normalisation changes nothing for a complete payload |
| ModalEntry.ToPayloadNormalize | vendor/shopware/administration/Resources/app/administration/src/app/state/modals.store.ts:4 | a payload can be recovered from its entry if and only if it had buttons and no `responseType`; the entry has no `responseType` field |
| ModalEntry.NormalizeIgnoresResponseType | vendor/shopware/administration/Resources/app/administration/src/app/state/modals.store.ts:4 | a payload's `responseType` has no influence on the stored entry |
| ModalEntry.NormalizeMissingButtons | vendor/shopware/administration/Resources/app/administration/src/app/state/modals.store.ts:33 | a missing `buttons` and an explicit `[]` give the same entry |
| ModalsStore.Without | vendor/shopware/administration/Resources/app/administration/src/app/state/modals.store.ts:39-41 | the filtered list is no longer than the original; each kept entry comes from the original and has a different location id |
| ModalsStore.WithoutAppend | vendor/shopware/administration/Resources/app/administration/src/app/state/modals.store.ts:39-41 | filtering a concatenation filters each part separately, so the filter works entry by entry |
| ModalsStore.WithoutMultiset | vendor/shopware/administration/Resources/app/administration/src/app/state/modals.store.ts:39-41 | after filtering, entries with the id occur 0 times; every other entry occurs exactly as often as before |
| ModalsStore.WithoutIsSubsequence | vendor/shopware/administration/Resources/app/administration/src/app/state/modals.store.ts:39-41 | the kept entries keep their original relative order |
| ModalsStore.WithoutLength | vendor/shopware/administration/Resources/app/administration/src/app/state/modals.store.ts:39-41 | the list shrinks by exactly the number of entries with that id |
| ModalsStore.WithoutUnchanged | vendor/shopware/administration/Resources/app/administration/src/app/state/modals.store.ts:39-41 | the list is unchanged if and only if no entry has that id |
| ModalsStore.WithoutCountId | vendor/shopware/administration/Resources/app/administration/src/app/state/modals.store.ts:39-41 | after filtering, no entry has that id |
| ModalsStore.WithoutIdempotent | vendor/shopware/administration/Resources/app/administration/src/app/state/modals.store.ts:39-41 | closing the same id twice gives the same list as closing it once |
| ModalsStore.CountIdAppend | vendor/shopware/administration/Resources/app/administration/src/app/state/modals.store.ts:27 | appending an entry adds one to the count of its own id and leaves the count of every other id unchanged |
| ModalsStore.ModalsState.constructor | vendor/shopware/administration/Resources/app/administration/src/app/state/modals.store.ts:13-15 | the initial state holds no modals |
| ModalsStore.ModalsState.OpenModal | vendor/shopware/administration/Resources/app/administration/src/app/state/modals.store.ts:18-35 | the new list is the old list plus the normalised entry at the end, one longer, with earlier entries unchanged and in place; one more entry has that id |
| ModalsStore.ModalsState.CloseModal | vendor/shopware/administration/Resources/app/administration/src/app/state/modals.store.ts:38-41 | the new list equals `Without(old list, id)`, has no entry with that id, and keeps its entries in their original order |
| ModalsStore.CloseAfterOpen | vendor/shopware/administration/Resources/app/administration/src/app/state/modals.store.ts:27-41 | closing the id of a modal just opened removes that modal and every other entry with the id, leaving what closing the id alone would leave |
| ModalsStore.CloseOtherAfterOpen | vendor/shopware/administration/Resources/app/administration/src/app/state/modals.store.ts:27-41 | closing a different id keeps the newly opened modal, still last |
| ModalsStore.OpenTwiceNoDedup | vendor/shopware/administration/Resources/app/administration/src/app/state/modals.store.ts:27 | opening the same location id twice adds two entries with that id: there is no deduplication |

## Left out

- The Vuex plumbing is not modelled: `Module<…>`, `namespaced: true`, reactivity, and how a mutation is committed. Each mutation is a method on the state object.
- The SDK types `uiModalOpen`, button descriptors, variants and response types are opaque values that support equality. Their internal structure is not modelled.
- The payload can carry undeclared extra properties at run time. The model only represents `responseType`, the one property the entry type omits by name.
- `title`, `closable`, `showHeader` and `variant` are copied even when `undefined`. The model treats each one as an opaque value that is copied, so "undefined" is just one such value.
- `null` and `undefined` for `buttons` are both modelled as `None`, because `??` handles them the same way.
- `vendor/shopware/core/DevOps/Locust/scenarios/nvidia-benchmark.py` is not modelled. It is a load-test script that calls helpers which are not part of this model, and its scheduling, weighting and random waits belong to the external Locust runner.
