/** The search iterator as a value, and what its operations do to it: pulling the
    next buffered entry, the buffer length and acquiring the next page. The class
    in module SearchIterator is proved against these functions. */
module SearchState {
  import opened LdapTypes

  /** The fields of an `LDAPSearchIter`. `sortKeys` is the list up to its NULL
      terminator; `hasParams` says whether the search parameters are allocated
      (their content is not part of this model). */
  datatype IterState = IterState(
    buffer: Option<seq<Entry>>,
    cookie: Option<BerVal>,
    pageSize: int,
    hasParams: bool,
    sortKeys: Option<seq<SortKey>>,
    vlvInfo: Option<VlvInfo>,
    extdnFormat: int)

  /** The fields as `ldapsearchiter_new` leaves them. */
  function Initial(): IterState
  {
    IterState(None, None, 0, false, None, None, -1)
  }

  /** `ldapsearchiter_len`: the number of buffered entries, 0 without a buffer. */
  function Length(s: IterState): nat
  {
    if s.buffer.None? then 0 else |s.buffer.value|
  }

  datatype Pulled = Pulled(item: Option<Entry>, after: IterState)

  /** `ldapsearchiter_iternext`: pop the front entry, or drop an empty buffer. */
  function Pull(s: IterState): Pulled
  {
    match s.buffer
    case None => Pulled(None, s)
    case Some(entries) =>
      if entries != [] then Pulled(Some(entries[0]), s.(buffer := Some(entries[1..])))
      else Pulled(None, s.(buffer := None))
  }

  datatype Drained = Drained(items: seq<Option<Entry>>, after: IterState)

  /** `n` successive pulls: what each returned, and the state after the last. */
  function PullMany(s: IterState, n: nat): Drained
    decreases n
  {
    if n == 0 then Drained([], s)
    else
      var p := Pull(s);
      var rest := PullMany(p.after, n - 1);
      Drained([p.item] + rest.items, rest.after)
  }

  /** A pull yields an entry exactly when one is buffered, and the length drops by one
      when it does; an empty or missing buffer yields nothing. */
  lemma PullShrinksLength(s: IterState)
    ensures Pull(s).item.Some? <==> Length(s) > 0
    ensures Length(Pull(s).after) == Length(s) - (if Pull(s).item.Some? then 1 else 0)
  {
  }

  /** FIFO: a non-empty buffer gives up its first entry and keeps exactly its tail;
      no other field changes. */
  lemma PullTakesFront(s: IterState)
    requires s.buffer.Some? && s.buffer.value != []
    ensures Pull(s).item == Some(s.buffer.value[0])
    ensures Pull(s).after == s.(buffer := Some(s.buffer.value[1..]))
  {
  }

  /** An empty buffer is dropped and nothing is returned; with no buffer nothing
      changes, so a second pull after the first one failed is a no-op. */
  lemma PullAfterEmpty(s: IterState)
    requires Pull(s).item.None?
    ensures Pull(s).after == s.(buffer := None)
    ensures Pull(Pull(s).after) == Pulled(None, Pull(s).after)
  {
  }

  /** Pulling from an iterator without a buffer returns nothing every time and
      never changes it. */
  lemma {:induction false} PullManyUnset(s: IterState, n: nat)
    requires s.buffer.None?
    ensures |PullMany(s, n).items| == n
    ensures forall i :: 0 <= i < n ==> PullMany(s, n).items[i].None?
    ensures PullMany(s, n).after == s
    decreases n
  {
    if n > 0 {
      PullManyUnset(s, n - 1);
    }
  }

  /** Draining a page: `|es|` pulls return the entries in order, the next pull
      drops the buffer, and every later pull returns nothing; only the buffer changes. */
  lemma {:induction false} PullManyDrains(s: IterState, k: nat)
    requires s.buffer.Some?
    ensures var es := s.buffer.value;
      var d := PullMany(s, |es| + 1 + k);
      && |d.items| == |es| + 1 + k
      && (forall i :: 0 <= i < |es| ==> d.items[i] == Some(es[i]))
      && (forall i :: |es| <= i < |es| + 1 + k ==> d.items[i].None?)
      && d.after == s.(buffer := None)
    decreases |s.buffer.value|
  {
    var es := s.buffer.value;
    var p := Pull(s);
    if es == [] {
      PullManyUnset(p.after, k);
    } else {
      PullManyDrains(p.after, k);
      var rest := PullMany(p.after, |es| + k);
      assert PullMany(s, |es| + 1 + k).items == [Some(es[0])] + rest.items;
    }
  }

  /** The paging cookie marks a search in progress: the cookie and its value
      pointer are set and `strlen` of the value is positive. */
  predicate CookieInProgress(c: Option<BerVal>)
  {
    c.Some? && c.value.val.Some? && Strlen(c.value.val.value) > 0
  }

  /** `strlen(...) > 0` tests the first byte only: what matters is that there is a
      first byte and that it is not zero, not the value's length. */
  lemma CookieInProgressIff(c: Option<BerVal>)
    ensures CookieInProgress(c) <==>
      c.Some? && c.value.val.Some? && |c.value.val.value| > 0 && c.value.val.value[0] != 0
  {
  }

  /** What acquiring the next page reports: the id of the follow-up search, a
      failed search (negative id), or that the paged search is over. */
  datatype PageOutcome = NextPage(msgid: int) | SearchFailed | Finished

  /** The outcome, whether a search was issued, and the state afterwards. */
  datatype Acquired = Acquired(outcome: PageOutcome, searched: bool, after: IterState)

  /** `ldapsearchiter_acquirenextpage`, given the id the connection's search call
      returns should it be made. */
  function AcquireStep(s: IterState, msgid: int): Acquired
  {
    if CookieInProgress(s.cookie) then
      Acquired(if msgid < 0 then SearchFailed else NextPage(msgid), true, s)
    else
      Acquired(Finished, false, s.(cookie := None))
  }

  /** A search is issued exactly when the cookie is set, its value is set and the
      value's first byte is non-zero; then the iterator is left as it was and the
      id (or the failure) is reported. */
  lemma AcquireSearchesIff(s: IterState, msgid: int)
    ensures AcquireStep(s, msgid).searched <==>
      s.cookie.Some? && s.cookie.value.val.Some? &&
      |s.cookie.value.val.value| > 0 && s.cookie.value.val.value[0] != 0
    ensures AcquireStep(s, msgid).searched ==>
      AcquireStep(s, msgid).after == s &&
      AcquireStep(s, msgid).outcome == (if msgid < 0 then SearchFailed else NextPage(msgid))
    ensures !AcquireStep(s, msgid).searched ==>
      AcquireStep(s, msgid).outcome == Finished &&
      AcquireStep(s, msgid).after == s.(cookie := None)
  {
    CookieInProgressIff(s.cookie);
  }

  /** Once a call reported "finished", every further call reports it again, issues
      no search and changes no field. */
  lemma AcquireFinishedIsStable(s: IterState, first: int, again: int)
    requires !AcquireStep(s, first).searched
    ensures var t := AcquireStep(s, first).after;
      AcquireStep(t, again) == Acquired(Finished, false, t)
  {
  }

  /** A cookie of one or more bytes whose first byte is zero ends the paged search
      as if it were empty. */
  lemma ZeroLeadingCookieFinishes(s: IterState, rest: seq<byte>, msgid: int)
    requires s.cookie == Some(BerVal(Some([0] + rest)))
    ensures AcquireStep(s, msgid) == Acquired(Finished, false, s.(cookie := None))
  {
  }

  /** A freshly created iterator has nothing buffered, yields nothing, and
      reports "finished" without searching. */
  lemma FreshIteratorIsExhausted(msgid: int)
    ensures Length(Initial()) == 0
    ensures Pull(Initial()) == Pulled(None, Initial())
    ensures AcquireStep(Initial(), msgid) == Acquired(Finished, false, Initial())
  {
  }
}
