/** What the iterator owns and what it gives back to the allocator. Every owned
    allocation gets a tag; `free` and `ber_bvfree` append tags to a log, and the
    obligation is that no tag is ever logged twice. */
module Releases {
  import opened LdapTypes
  import opened SearchState

  /** One owned allocation. Sort keys are told apart by their position in the list. */
  datatype Res =
    | KeyAttributeType(i: nat)   // sort_list[i]->attributeType
    | KeyOrderingRule(i: nat)    // sort_list[i]->orderingRule
    | SortKeyStruct(i: nat)      // sort_list[i]
    | SortKeyList                // sort_list
    | VlvValueBytes              // vlv_info->ldvlv_attrvalue->bv_val
    | VlvValueHolder             // vlv_info->ldvlv_attrvalue
    | VlvStruct                  // vlv_info
    | CookieBytes                // cookie->bv_val
    | CookieHolder               // cookie

  /** Whether the iterator in state `s` holds the allocation `r`. */
  predicate Holds(s: IterState, r: Res)
  {
    match r
    case KeyAttributeType(i) => s.sortKeys.Some? && i < |s.sortKeys.value|
    case SortKeyStruct(i) => s.sortKeys.Some? && i < |s.sortKeys.value|
    case KeyOrderingRule(i) =>
      s.sortKeys.Some? && i < |s.sortKeys.value| && s.sortKeys.value[i].orderingRule.Some?
    case SortKeyList => s.sortKeys.Some?
    case VlvStruct => s.vlvInfo.Some?
    case VlvValueHolder => s.vlvInfo.Some? && s.vlvInfo.value.attrValue.Some?
    case VlvValueBytes =>
      s.vlvInfo.Some? && s.vlvInfo.value.attrValue.Some? && s.vlvInfo.value.attrValue.value.val.Some?
    case CookieHolder => s.cookie.Some?
    case CookieBytes => s.cookie.Some? && s.cookie.value.val.Some?
  }

  /** `ber_bvfree(b)`: nothing for NULL, otherwise the value bytes (when set) and
      then the holder. */
  function BerFree(b: Option<BerVal>, bytes: Res, holder: Res): seq<Res>
  {
    match b
    case None => []
    case Some(v) => (if v.val.Some? then [bytes] else []) + [holder]
  }

  /** The teardown loop over the first `n` sort keys: each key's attribute type,
      then the key itself. */
  function KeyReleases(n: nat): seq<Res>
  {
    if n == 0 then [] else KeyReleases(n - 1) + [KeyAttributeType(n - 1), SortKeyStruct(n - 1)]
  }

  /** The sort list's part of teardown: every key, then the list itself. */
  function SortListReleases(keys: Option<seq<SortKey>>): seq<Res>
  {
    if keys.Some? then KeyReleases(|keys.value|) + [SortKeyList] else []
  }

  /** The VLV descriptor's part of teardown: its target value, then the struct. */
  function VlvReleases(vlv: Option<VlvInfo>): seq<Res>
  {
    if vlv.Some? then BerFree(vlv.value.attrValue, VlvValueBytes, VlvValueHolder) + [VlvStruct] else []
  }

  /** `ldapsearchiter_dealloc`: the sort list, the VLV descriptor and the cookie,
      which is released with a plain `free`, so only its holder. */
  function DeallocPlan(s: IterState): seq<Res>
  {
    SortListReleases(s.sortKeys) + VlvReleases(s.vlvInfo) + (if s.cookie.Some? then [CookieHolder] else [])
  }

  /** `ldapsearchiter_acquirenextpage` frees the cookie with `ber_bvfree` when it
      reports "finished", and frees nothing when it searches. */
  function AcquireReleases(s: IterState): seq<Res>
  {
    if CookieInProgress(s.cookie) then [] else BerFree(s.cookie, CookieBytes, CookieHolder)
  }

  /** The allocations teardown never gives back: the ordering rules and the
      cookie's value bytes. */
  predicate LeakedOnDealloc(r: Res)
  {
    r.KeyOrderingRule? || r == CookieBytes
  }

  /** The teardown loop releases the attribute type of key `i` at position `2i` and
      the key at `2i + 1`. */
  lemma {:induction false} KeyReleasesAt(n: nat, i: nat)
    requires i < n
    ensures |KeyReleases(n)| == 2 * n
    ensures KeyReleases(n)[2 * i] == KeyAttributeType(i)
    ensures KeyReleases(n)[2 * i + 1] == SortKeyStruct(i)
  {
    if i < n - 1 {
      KeyReleasesAt(n - 1, i);
    } else if n > 1 {
      KeyReleasesAt(n - 1, 0);
    }
  }

  /** The teardown loop releases the attribute types and structs of the keys it
      visits, nothing else, and each at most once. */
  lemma {:induction false} KeyReleasesMembers(n: nat)
    ensures forall r :: r in KeyReleases(n) <==> (r.KeyAttributeType? || r.SortKeyStruct?) && r.i < n
    ensures NoDup(KeyReleases(n))
  {
    if n > 0 {
      KeyReleasesMembers(n - 1);
      NoDupAppend(KeyReleases(n - 1), [KeyAttributeType(n - 1), SortKeyStruct(n - 1)]);
    }
  }

  /** Teardown releases exactly the held allocations except the leaked ones. */
  lemma DeallocPlanCovers(s: IterState)
    ensures forall r :: r in DeallocPlan(s) <==> Holds(s, r) && !LeakedOnDealloc(r)
  {
    if s.sortKeys.Some? {
      KeyReleasesMembers(|s.sortKeys.value|);
    }
  }

  /** Teardown releases nothing twice. */
  lemma DeallocPlanNoDup(s: IterState)
    ensures NoDup(DeallocPlan(s))
  {
    var sorts := SortListReleases(s.sortKeys);
    var vlv := VlvReleases(s.vlvInfo);
    if s.sortKeys.Some? {
      KeyReleasesMembers(|s.sortKeys.value|);
      NoDupAppend(KeyReleases(|s.sortKeys.value|), [SortKeyList]);
    }
    NoDupAppend(sorts, vlv);
    NoDupAppend(sorts + vlv, if s.cookie.Some? then [CookieHolder] else []);
  }

  /** Release-once over the iterator's lifetime: when nothing released so far is
      still held, teardown adds no tag twice. */
  lemma DeallocReleasesOnce(released: seq<Res>, s: IterState)
    requires NoDup(released)
    requires forall r :: r in released ==> !Holds(s, r)
    ensures NoDup(released + DeallocPlan(s))
    ensures forall r :: Holds(s, r) && !LeakedOnDealloc(r) ==> r in released + DeallocPlan(s)
  {
    DeallocPlanNoDup(s);
    DeallocPlanCovers(s);
    NoDupAppend(released, DeallocPlan(s));
  }

  /** Acquiring the next page keeps release-once: the cookie it frees was held and
      is no longer held afterwards, and it frees nothing else. */
  lemma AcquireReleasesOnce(released: seq<Res>, s: IterState, msgid: int)
    requires NoDup(released)
    requires forall r :: r in released ==> !Holds(s, r)
    ensures var t := AcquireStep(s, msgid).after;
      && NoDup(released + AcquireReleases(s))
      && (forall r :: r in released + AcquireReleases(s) ==> !Holds(t, r))
      && (forall r :: r in AcquireReleases(s) <==> Holds(s, r) && !Holds(t, r))
  {
    var t := AcquireStep(s, msgid).after;
    var freed := AcquireReleases(s);
    assert forall r :: r in freed ==> Holds(s, r);
    assert NoDup(freed);
    NoDupAppend(released, freed);
  }
}
