/** Values the search iterator holds: result entries, BER values, sort keys and
    VLV descriptors, with the C library behaviour the iterator relies on. */
module LdapTypes {

  datatype Option<+T> = None | Some(value: T)

  /** An unsigned octet, as held in the buffer of a `struct berval`. */
  type byte = x: int | 0 <= x < 256

  /** A decoded search-result entry, as the connection's result handler appends
      it to the iterator's buffer. What it contains does not matter here. */
  datatype Entry = Entry(handle: nat)

  /** `struct berval`: `val` is `bv_val`, either NULL or the bytes it points at
      (`bv_len` is their number). */
  datatype BerVal = BerVal(val: Option<seq<byte>>)

  /** `LDAPSortKey`: an attribute type, an optional ordering rule and the
      reverse flag. */
  datatype SortKey = SortKey(attributeType: string, orderingRule: Option<string>, reverseOrder: bool)

  /** `LDAPVLVInfo`: the window around the target and the optional target value. */
  datatype VlvInfo = VlvInfo(beforeCount: int, afterCount: int, offset: int, count: int,
                             attrValue: Option<BerVal>)

  /** C's `strlen` over the bytes of a buffer: how many bytes come before the
      first zero byte (all of them when there is none). */
  function Strlen(s: seq<byte>): (n: nat)
    ensures n <= |s|
    ensures forall i :: 0 <= i < n ==> s[i] != 0
    ensures n < |s| ==> s[n] == 0
  {
    if |s| == 0 || s[0] == 0 then 0 else 1 + Strlen(s[1..])
  }

  /** A `LDAPSortKey **` list ends with a NULL entry. */
  predicate NullTerminated(list: seq<Option<SortKey>>)
  {
    exists i :: 0 <= i < |list| && list[i].None?
  }

  /** The sort keys of a NULL-terminated list: every entry before the first NULL. */
  function SortKeysOf(list: seq<Option<SortKey>>): (keys: seq<SortKey>)
    ensures |keys| <= |list|
    ensures forall i :: 0 <= i < |keys| ==> list[i] == Some(keys[i])
    ensures |keys| < |list| ==> list[|keys|].None?
    ensures NullTerminated(list) <==> |keys| < |list|
  {
    if |list| == 0 || list[0].None? then [] else [list[0].value] + SortKeysOf(list[1..])
  }

  /** No element occurs twice. */
  predicate NoDup<T(==)>(s: seq<T>)
  {
    forall i, j :: 0 <= i < j < |s| ==> s[i] != s[j]
  }

  lemma NoDupAppend<T>(a: seq<T>, b: seq<T>)
    requires NoDup(a) && NoDup(b)
    requires forall x :: x in a ==> x !in b
    ensures NoDup(a + b)
  {
    forall i, j | 0 <= i < j < |a + b|
      ensures (a + b)[i] != (a + b)[j]
    {
      if j < |a| {
      } else if i >= |a| {
        assert (a + b)[i] == b[i - |a|] && (a + b)[j] == b[j - |a|];
      } else {
        assert (a + b)[i] == a[i] && (a + b)[j] == b[j - |a|];
        assert a[i] in a;
      }
    }
  }
}
