/** The `LDAPSearchIter` object: its fields are updated in place by its methods,
    each proved against the functions of modules SearchState and Releases. */
module SearchIterator {
  import opened LdapTypes
  import opened SearchState
  import opened Releases

  /** The connection, as far as the iterator uses it: `LDAPConnection_Searching`.
      What the search call does inside is not part of this model. It is handed the
      iterator, whose fields (parameters, page size, cookie, sort list, VLV
      descriptor) make up the request; it records them and returns the message id
      the LDAP library assigned (negative on failure), which is given as `reply`. */
  class Connection {
    var searches: seq<IterState>

    constructor ()
      ensures searches == []
    {
      searches := [];
    }

    method Searching(request: IterState, reply: int) returns (msgid: int)
      modifies this
      ensures searches == old(searches) + [request]
      ensures msgid == reply
    {
      searches := searches + [request];
      msgid := reply;
    }
  }

  class SearchIter {
    var buffer: Option<seq<Entry>>
    var cookie: Option<BerVal>
    var pageSize: int
    var hasParams: bool
    var sortList: array?<Option<SortKey>>
    var vlvInfo: Option<VlvInfo>
    var extdnFormat: int
    var conn: Connection?
    /** The allocations given back so far, in order. */
    ghost var released: seq<Res>
    /** How many times the iterator dropped a reference to itself. */
    ghost var droppedSelfRefs: nat

    /** The fields as a value. */
    function State(): IterState
      reads this, sortList
    {
      IterState(buffer, cookie, pageSize, hasParams,
                if sortList == null then None else Some(SortKeysOf(sortList[..])),
                vlvInfo, extdnFormat)
    }

    /** The sort list is NULL-terminated, and every allocation released so far was
        released once and is no longer held. */
    ghost predicate Valid()
      reads this, sortList
    {
      && (sortList != null ==> NullTerminated(sortList[..]))
      && NoDup(released)
      && forall r :: r in released ==> !Holds(State(), r)
    }

    /** `ldapsearchiter_new`: no buffer, cookie, parameters, sort list or VLV
        descriptor; page size 0 and extended-DN format -1. */
    constructor ()
      ensures Valid()
      ensures State() == Initial()
      ensures sortList == null && conn == null
      ensures released == [] && droppedSelfRefs == 0
    {
      buffer := None;
      cookie := None;
      pageSize := 0;
      hasParams := false;
      sortList := null;
      vlvInfo := None;
      extdnFormat := -1;
      conn := null;
      released := [];
      droppedSelfRefs := 0;
    }

    /** `LDAPSearchIter_New`: with a connection, the parameters are allocated and
        the connection is recorded; when that allocation fails there is no
        iterator. The two allocation outcomes are given as parameters. */
    static method NewForConnection(c: Connection?, selfAllocated: bool, paramsAllocated: bool)
      returns (it: SearchIter?)
      ensures it == null <==> !selfAllocated || (c != null && !paramsAllocated)
      ensures it != null ==>
        && fresh(it) && it.Valid()
        && it.State() == Initial().(hasParams := c != null)
        && it.conn == c && it.sortList == null
        && it.released == [] && it.droppedSelfRefs == 0
    {
      if !selfAllocated {
        return null;
      }
      it := new SearchIter();
      if c != null {
        if !paramsAllocated {
          return null;
        }
        it.hasParams := true;
        it.conn := c;
      }
    }

    /** `ldapsearchiter_len`. */
    method Len() returns (n: int)
      ensures buffer.None? ==> n == 0
      ensures buffer.Some? ==> n == |buffer.value|
      ensures n == Length(State())
    {
      if buffer == None {
        return 0;
      }
      n := |buffer.value|;
    }

    /** `ldapsearchiter_iternext`: the front entry is removed from the buffer and
        returned; an empty buffer is dropped and nothing is returned. */
    method IterNext() returns (item: Option<Entry>)
      requires Valid()
      modifies this
      ensures Valid()
      ensures item == Pull(old(State())).item
      ensures State() == Pull(old(State())).after
      ensures sortList == old(sortList) && conn == old(conn)
      ensures released == old(released) && droppedSelfRefs == old(droppedSelfRefs)
    {
      if buffer == None {
        return None;
      }
      if |buffer.value| != 0 {
        item := Some(buffer.value[0]);
        buffer := Some(buffer.value[1..]);
        return item;
      } else {
        buffer := None;
      }
      return None;
    }

    /** `ldapsearchiter_acquirenextpage`: with a cookie in progress, issue the
        follow-up search and report its id; otherwise free the cookie, unset it,
        drop the reference to self and report "finished". `reply` is the id the
        connection's search call returns should it be made. */
    method AcquireNextPage(reply: int) returns (outcome: PageOutcome)
      requires Valid()
      requires CookieInProgress(cookie) ==> conn != null
      modifies this, conn
      ensures Valid()
      ensures outcome == AcquireStep(old(State()), reply).outcome
      ensures State() == AcquireStep(old(State()), reply).after
      ensures sortList == old(sortList) && conn == old(conn)
      ensures released == old(released) + AcquireReleases(old(State()))
      ensures conn != null ==>
        conn.searches == (if AcquireStep(old(State()), reply).searched then old(conn.searches) + [old(State())]
                          else old(conn.searches))
      ensures droppedSelfRefs ==
        old(droppedSelfRefs) + if AcquireStep(old(State()), reply).searched then 0 else 1
    {
      if cookie.Some? && cookie.value.val.Some? && Strlen(cookie.value.val.value) > 0 {
        var msgid := conn.Searching(State(), reply);
        if msgid < 0 {
          return SearchFailed;
        }
        return NextPage(msgid);
      } else {
        AcquireReleasesOnce(released, State(), reply);
        released := released + BerFree(cookie, CookieBytes, CookieHolder);
        cookie := None;
        droppedSelfRefs := droppedSelfRefs + 1;
        return Finished;
      }
    }

    /** `ldapsearchiter_dealloc`: release the sort list (each key's attribute type
        and the key, up to the NULL terminator, then the list), the VLV descriptor
        (the target value's bytes and holder when present, then the struct) and
        the cookie holder. Nothing is released twice; the ordering rules and the
        cookie's bytes are not released. */
    method Dealloc()
      requires Valid()
      modifies this
      ensures released == old(released) + DeallocPlan(old(State()))
      ensures NoDup(released)
      ensures forall r :: Holds(old(State()), r) && !LeakedOnDealloc(r) ==> r in released
      ensures State() == old(State()) && sortList == old(sortList)
      ensures conn == old(conn) && droppedSelfRefs == old(droppedSelfRefs)
    {
      ghost var s := State();
      DeallocReleasesOnce(released, s);
      ghost var freed: seq<Res> := [];
      var list := sortList;
      if list != null {
        ghost var keys := SortKeysOf(list[..]);
        assert forall j :: 0 <= j < |keys| ==> list[..][j] == list[j];
        assert list[..][|keys|] == list[|keys|];
        var i := 0;
        while list[i] != None
          invariant 0 <= i <= |keys| < list.Length
          invariant freed == KeyReleases(i)
          decreases |keys| - i
        {
          freed := freed + [KeyAttributeType(i)];
          freed := freed + [SortKeyStruct(i)];
          i := i + 1;
        }
        freed := freed + [SortKeyList];
      }
      assert freed == SortListReleases(s.sortKeys);
      if vlvInfo.Some? {
        var vlv := vlvInfo.value;
        if vlv.attrValue.Some? {
          // free() of a NULL value pointer releases nothing
          if vlv.attrValue.value.val.Some? {
            freed := freed + [VlvValueBytes];
          }
          freed := freed + [VlvValueHolder];
        }
        freed := freed + [VlvStruct];
      }
      assert freed == SortListReleases(s.sortKeys) + VlvReleases(s.vlvInfo);
      if cookie.Some? {
        freed := freed + [CookieHolder];
      }
      released := released + freed;
    }
  }
}
