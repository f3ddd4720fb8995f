# LDAP search iterator — a Dafny model

This project models the search iterator of bonsai's C extension
(`src/ldapsearchiter.c`): the object that holds one LDAP search's buffered
result entries, its paging cookie, page size, sort-key list, VLV descriptor
and extended-DN format. It covers creation, the buffer length, pulling the
next entry (FIFO), acquiring the next page of a paged search, and teardown.
The proofs cover the iterator's state transitions and the rule that every
owned allocation is released at most once.

Layout:

- `ldap_types.dfy`, module `LdapTypes`: entries, `struct berval`,
  `LDAPSortKey`, `LDAPVLVInfo`, C's `strlen`, and the keys of a
  NULL-terminated sort list.
- `search_state.dfy`, module `SearchState`: the iterator's fields as a value
  (`IterState`). It defines what pulling (`Pull`, `PullMany`), the length
  (`Length`) and acquiring the next page (`AcquireStep`) do to that value, with
  lemmas about them.
- `releases.dfy`, module `Releases`: one tag per owned allocation (`Res`).
  `Holds` says which allocations a state owns. `DeallocPlan` and
  `AcquireReleases` say what teardown and acquire-next-page give back, in order.
  The lemmas prove release-once.
- `search_iter.dfy`, module `SearchIterator`: the class `SearchIter`, with
  the C object's fields updated in place. Each method is proved against the
  functions above. A ghost `released` log records every `free`/`ber_bvfree`.
  `Valid()` says that no tag occurs twice in that log and that no released
  allocation is still held. There is also a class `Connection` for the one
  connection call the iterator makes.

Behaviour kept from the code:

- A cookie is "in progress" when `strlen` of its value is positive. That
  means its first byte is non-zero. A non-empty cookie whose first byte is 0
  ends the paged search (`ZeroLeadingCookieFinishes`).
- Teardown frees the cookie with a plain `free`. Its value bytes are
  therefore never released. Acquire-next-page uses `ber_bvfree` instead, which
  releases both. Teardown never frees a sort key's `orderingRule`.
  `DeallocPlanCovers` states exactly which held allocations teardown leaves
  behind.
- Pulling from an iterator with no buffer returns nothing and does not
  raise an error. The code returns NULL without setting an exception, which
  Python reads as the end of iteration.

## Model

| member | source | states |
|---|---|---|
| LdapTypes.Strlen | src/ldapsearchiter.c:82-83 | the count of bytes before the first zero byte: all of them are non-zero, and the byte after them is zero when there is one |
| LdapTypes.SortKeysOf | src/ldapsearchiter.c:21 | the keys walked by the teardown loop are exactly the entries before the first NULL, and the list is NULL-terminated iff that prefix is shorter than the list |
| SearchState.CookieInProgressIff | src/ldapsearchiter.c:82-83 | the paging test holds iff the cookie is set, its value is set, and the value has a first byte that is non-zero |
| SearchState.PullShrinksLength | src/ldapsearchiter.c:105-135 | a pull yields an entry iff the length is positive, and the length then drops by exactly one (otherwise by nothing) |
| SearchState.PullTakesFront | src/ldapsearchiter.c:110-123 | from a non-empty buffer a pull returns the first entry and leaves exactly the tail, every other field unchanged |
| SearchState.PullAfterEmpty | src/ldapsearchiter.c:124-128 | a pull that yields nothing leaves the buffer unset and nothing else changed; a further pull then yields nothing and changes nothing |
| SearchState.PullManyUnset | src/ldapsearchiter.c:108 | any number of pulls without a buffer return nothing every time and leave the iterator unchanged |
| SearchState.PullManyDrains | src/ldapsearchiter.c:105-129 | draining a buffer of entries e1..en returns e1..en in order, then nothing on every later pull, and only the buffer changes, ending unset |
| SearchState.AcquireSearchesIff | src/ldapsearchiter.c:82-93 | a search is issued iff cookie, value and a non-zero first byte are all present; then the state is unchanged and the id, or a failure for a negative id, is reported; otherwise "finished" is reported and the cookie is unset |
| SearchState.AcquireFinishedIsStable | src/ldapsearchiter.c:88-93 | after a call reported "finished", every further call reports "finished" again, issues no search and changes no field of the iterator |
| SearchState.ZeroLeadingCookieFinishes | src/ldapsearchiter.c:82-83 | a cookie of one or more bytes whose first byte is 0 ends the paged search exactly as an absent cookie does |
| SearchState.FreshIteratorIsExhausted | src/ldapsearchiter.c:47-57 | a freshly created iterator has length 0, yields nothing, and reports "finished" without searching |
| Releases.KeyReleasesAt | src/ldapsearchiter.c:21-24 | the teardown loop releases key i's attribute type at position 2i and then key i itself, for every key before the terminator |
| Releases.KeyReleasesMembers | src/ldapsearchiter.c:21-24 | the loop releases precisely the attribute types and structs of the visited keys, each once |
| Releases.DeallocPlanCovers | src/ldapsearchiter.c:18-37 | teardown releases an allocation iff the iterator holds it and it is neither an ordering rule nor the cookie's value bytes |
| Releases.DeallocPlanNoDup | src/ldapsearchiter.c:18-37 | teardown releases no allocation twice |
| Releases.DeallocReleasesOnce | src/ldapsearchiter.c:18-37 | if nothing released earlier is still held, the whole lifetime log after teardown has no repeats and contains every held allocation except the leaked ones |
| Releases.AcquireReleasesOnce | src/ldapsearchiter.c:88-90 | acquire-next-page keeps release-once: it frees exactly the cookie allocations it stops holding, none twice |
| SearchIterator.Connection.Searching | src/ldapconnection.h:25 | the search call records the iterator's whole state (parameters, page size, cookie, sort list, VLV descriptor) as the request and returns the message id the library assigned |
| SearchIterator.SearchIter.constructor | src/ldapsearchiter.c:43-60 | a new iterator has no buffer, cookie, params, sort list or VLV info, page size 0 and extended-DN format -1 |
| SearchIterator.SearchIter.NewForConnection | src/ldapsearchiter.c:63-75 | with a connection, params are allocated and the connection recorded; no iterator when the object or the params cannot be allocated |
| SearchIterator.SearchIter.Len | src/ldapsearchiter.c:131-135 | 0 without a buffer, otherwise the number of buffered entries; equal to `Length` of the fields, so the lemmas about `Length` apply to it |
| SearchIterator.SearchIter.IterNext | src/ldapsearchiter.c:104-129 | the returned entry and the new fields are those of `Pull` on the old fields; the release log is unchanged and the invariant kept |
| SearchIterator.SearchIter.AcquireNextPage | src/ldapsearchiter.c:78-94 | outcome and new fields as `AcquireStep`; the connection logs one search carrying the iterator's whole current state, stored cookie included, iff one is issued; otherwise the cookie is released with `ber_bvfree` and one self-reference dropped |
| SearchIterator.SearchIter.Dealloc | src/ldapsearchiter.c:11-39 | the release log grows by exactly `DeallocPlan` of the old fields, walking the sort list to its NULL terminator, has no repeats, and covers every held allocation except the leaked ones |

## Left out

- `free_search_params` and the content of `ldapsearchparams`: their code is not part of this model. The model records only whether the parameters are allocated, and teardown's release log does not include them.
- `LDAPConnection_Searching`: its body is not part of this model. The code passes it the iterator itself and NULL parameters (`src/ldapsearchiter.c:84`); `Connection.Searching` receives the iterator's fields as a value and records them as the request, and takes the message id it returns as a parameter. How the request is built from those fields is not modelled. The model assumes the call does not change the iterator's fields.
- SearchIterator.SearchIter.AcquireNextPage: requires a connection whenever a cookie is in progress. The code passes `self->conn` unchecked; only the connection's result handler installs a cookie, so a cookie never exists on an iterator without a connection.
- SearchIterator.SearchIter.AcquireNextPage: each call that reports "finished" drops one more reference to the iterator (`Py_DECREF(self)` at `src/ldapsearchiter.c:91`), so repeated calls drop one reference each; the ghost counter `droppedSelfRefs` records this, and no field of the iterator is otherwise changed.
- The connection's result handler, which fills the buffer and replaces the cookie, is not part of this model. Release tags identify allocations by role, so a cookie installed after an earlier one was freed would need a fresh identity that the model does not give it.
- Python reference counting (`Py_INCREF`, `Py_DECREF`, `Py_XDECREF` of the buffer and the connection), `tp_alloc`/`tp_free`, `ldapsearchiter_getiter` and the type and method tables: these belong to the host object model. The self-decref at line 91 is kept only as the ghost counter `droppedSelfRefs`.
- SearchIterator.SearchIter.constructor: models only a successful `tp_alloc`. `NewForConnection` models the failing allocation. The object leaked when the params allocation fails is not tracked.
- SearchIterator.SearchIter.IterNext: a failing `PyList_SetSlice` at `src/ldapsearchiter.c:119`, taken only when memory runs out while the list shrinks, is not modelled, and neither is `PyList_GetItem` returning NULL at :112-116, which cannot happen for index 0 of a non-empty list; the model always returns the popped entry.
- SearchIterator.SearchIter.AcquireNextPage: a failing `PyLong_FromLong` at `src/ldapsearchiter.c:87`, taken only when memory runs out, is not modelled; the model reports `NextPage` for every non-negative message id.
- LdapTypes.Strlen: on a value with no zero byte, C's `strlen` reads past `bv_len`. The model stops at the end of the value, so an empty value counts as an empty cookie.
- `src/wldap-utf8.h`: only renames and prototypes of the Windows transcoding shim, whose bodies are not part of this model.
