/** `ProxyList`: a lazily constructing, bounds-checked indexer over a set of valid
    keys. Indexing checks the key first and only then builds a proxy bound to the
    parent; iteration builds one proxy per valid key, in the valid set's order.

    The valid set is one of three kinds: a `range`, a list of values, or an enum
    class. Whether the set counts as an enum is decided once, when the list is
    built, from whether `Enum` or `IntEnum` is a direct base of the class. */
module UtilFns {
  import opened Wrappers

  /** A plain key or enum value: an integer or a string. */
  datatype Scalar = Int(i: int) | Str(s: string)

  /** What an index or a proxy key can be: a plain value, or a member of the
      valid enum named by its (canonical) name. */
  datatype Key = Plain(v: Scalar) | Member(name: string)

  /** One enum member as declared. A member whose value an earlier member already
      has is an alias of that earlier member. */
  datatype EnumMember = EnumMember(name: string, value: Scalar)

  datatype ValidSet =
    | Range(start: int, stop: int)                                // range(start, stop)
    | Items(items: seq<Scalar>)                                   // a list of values
    | EnumClass(members: seq<EnumMember>, directEnumBase: bool)   // an enum class

  /** A proxy object: what `proxy_cls(parent, idx)` builds. */
  datatype Proxy<P> = Proxy(parent: P, key: Key)

  datatype ProxyList<P> = ProxyList(parent: P, validSet: ValidSet, isEnum: bool)

  /** `ProxyList(parent, proxy_cls, valid_set)`: only an enum class with `Enum`
      or `IntEnum` among its direct bases is treated as an enum. */
  function NewProxyList<P>(parent: P, validSet: ValidSet): (pl: ProxyList<P>)
    ensures pl.parent == parent && pl.validSet == validSet
    ensures pl.isEnum <==> validSet.EnumClass? && validSet.directEnumBase
  {
    ProxyList(parent, validSet, validSet.EnumClass? && validSet.directEnumBase)
  }

  predicate HasValue(ms: seq<EnumMember>, v: Scalar) {
    exists k :: 0 <= k < |ms| && ms[k].value == v
  }

  predicate HasName(ms: seq<EnumMember>, n: string) {
    exists k :: 0 <= k < |ms| && ms[k].name == n
  }

  /** The member declared at `i` is the first with its value, so not an alias. */
  predicate FirstOfValue(ms: seq<EnumMember>, i: int)
    requires 0 <= i < |ms|
  {
    forall j :: 0 <= j < i ==> ms[j].value != ms[i].value
  }

  /** The members an enum class iterates over and counts: aliases left out,
      declaration order kept. */
  function Canonical(ms: seq<EnumMember>): (c: seq<EnumMember>)
    ensures |c| <= |ms|
    ensures forall k :: 0 <= k < |c| ==> c[k] in ms
    ensures forall i, j :: 0 <= i < j < |c| ==> c[i].value != c[j].value
    ensures forall v :: HasValue(ms, v) <==> HasValue(c, v)
  {
    if ms == [] then []
    else
      var init := ms[..|ms| - 1];
      var last := ms[|ms| - 1];
      var c0 := Canonical(init);
      assert forall v :: HasValue(ms, v) <==> HasValue(init, v) || last.value == v;
      if HasValue(init, last.value) then c0
      else
        assert forall v :: HasValue(c0 + [last], v) <==> HasValue(c0, v) || last.value == v by {
          forall v | HasValue(c0, v) ensures HasValue(c0 + [last], v) {
            var k :| 0 <= k < |c0| && c0[k].value == v;
            assert (c0 + [last])[k] == c0[k];
          }
          assert (c0 + [last])[|c0|] == last;
        }
        c0 + [last]
  }

  /** `pos` lists where the members `c` sit among the declared members `ms`:
      each is the first member of its value, the positions strictly increase,
      and every first-of-its-value member is listed. */
  predicate Positions(ms: seq<EnumMember>, c: seq<EnumMember>, pos: seq<int>) {
    && |pos| == |c|
    && (forall k :: 0 <= k < |pos| ==> 0 <= pos[k] < |ms| && c[k] == ms[pos[k]] && FirstOfValue(ms, pos[k]))
    && (forall k, l :: 0 <= k < l < |pos| ==> pos[k] < pos[l])
    && (forall i :: 0 <= i < |ms| && FirstOfValue(ms, i) ==> i in pos)
  }

  /** The canonical members are exactly the first member of each value, in
      declaration order, so iteration follows declaration order. */
  lemma {:induction false} CanonicalPositions(ms: seq<EnumMember>) returns (pos: seq<int>)
    ensures Positions(ms, Canonical(ms), pos)
    decreases |ms|
  {
    if ms == [] {
      pos := [];
    } else {
      var n := |ms| - 1;
      var pos0 := CanonicalPositions(ms[..n]);
      if FirstOfValue(ms, n) {
        CanonicalKeepsFirst(ms);
        PositionsAppendFirst(ms, Canonical(ms[..n]), pos0);
        pos := pos0 + [n];
      } else {
        CanonicalDropsAlias(ms);
        PositionsSkipAlias(ms, Canonical(ms[..n]), pos0);
        pos := pos0;
      }
    }
  }

  lemma PositionsAppendFirst(ms: seq<EnumMember>, c0: seq<EnumMember>, pos0: seq<int>)
    requires ms != [] && Positions(ms[..|ms| - 1], c0, pos0) && FirstOfValue(ms, |ms| - 1)
    ensures Positions(ms, c0 + [ms[|ms| - 1]], pos0 + [|ms| - 1])
  {
    var n := |ms| - 1;
    var init := ms[..n];
    var c := c0 + [ms[n]];
    var pos := pos0 + [n];
    forall k | 0 <= k < |pos|
      ensures 0 <= pos[k] < |ms| && c[k] == ms[pos[k]] && FirstOfValue(ms, pos[k])
    {
      if k < |pos0| {
        FirstOfValueInPrefix(ms, n, pos0[k]);
        assert pos[k] == pos0[k] && c[k] == c0[k] && ms[pos0[k]] == init[pos0[k]];
      }
    }
    forall k, l | 0 <= k < l < |pos| ensures pos[k] < pos[l] {
      assert pos[k] == pos0[k];
    }
    forall i | 0 <= i < |ms| && FirstOfValue(ms, i) ensures i in pos {
      if i < n {
        FirstOfValueInPrefix(ms, n, i);
        assert i in pos0;
      } else {
        assert pos[|pos0|] == i;
      }
    }
  }

  lemma PositionsSkipAlias(ms: seq<EnumMember>, c0: seq<EnumMember>, pos0: seq<int>)
    requires ms != [] && Positions(ms[..|ms| - 1], c0, pos0) && !FirstOfValue(ms, |ms| - 1)
    ensures Positions(ms, c0, pos0)
  {
    var n := |ms| - 1;
    var init := ms[..n];
    forall k | 0 <= k < |pos0|
      ensures 0 <= pos0[k] < |ms| && c0[k] == ms[pos0[k]] && FirstOfValue(ms, pos0[k])
    {
      FirstOfValueInPrefix(ms, n, pos0[k]);
      assert ms[pos0[k]] == init[pos0[k]];
    }
    forall i | 0 <= i < |ms| && FirstOfValue(ms, i) ensures i in pos0 {
      if i < n {
        FirstOfValueInPrefix(ms, n, i);
      }
    }
  }

  /** Before position `n`, being first of one's value does not depend on what
      is declared from `n` on. */
  lemma FirstOfValueInPrefix(ms: seq<EnumMember>, n: int, i: int)
    requires 0 <= i < n <= |ms|
    ensures FirstOfValue(ms, i) <==> FirstOfValue(ms[..n], i)
  {
    assert forall j :: 0 <= j < n ==> ms[j] == ms[..n][j];
  }

  /** A last member that is first of its value is appended. */
  lemma CanonicalKeepsFirst(ms: seq<EnumMember>)
    requires ms != [] && FirstOfValue(ms, |ms| - 1)
    ensures Canonical(ms) == Canonical(ms[..|ms| - 1]) + [ms[|ms| - 1]]
  {
    var init := ms[..|ms| - 1];
    forall k | 0 <= k < |init| ensures init[k].value != ms[|ms| - 1].value {
      assert init[k] == ms[k];
    }
  }

  /** A last member that repeats an earlier value is an alias and dropped. */
  lemma CanonicalDropsAlias(ms: seq<EnumMember>)
    requires ms != [] && !FirstOfValue(ms, |ms| - 1)
    ensures Canonical(ms) == Canonical(ms[..|ms| - 1])
  {
    var init := ms[..|ms| - 1];
    var j :| 0 <= j < |ms| - 1 && ms[j].value == ms[|ms| - 1].value;
    assert init[j] == ms[j];
  }

  /** The value of the first member declared under the name `n`. */
  function ValueOfName(ms: seq<EnumMember>, n: string): (v: Scalar)
    requires HasName(ms, n)
    ensures exists k :: 0 <= k < |ms| && ms[k].name == n && ms[k].value == v
  {
    if ms[0].name == n then ms[0].value
    else
      assert HasName(ms[1..], n) by {
        var k :| 0 <= k < |ms| && ms[k].name == n;
        assert ms[1..][k - 1].name == n;
      }
      ValueOfName(ms[1..], n)
  }

  /** `__getitem__` on an enum valid set: the key is tried as a member name first
      (`valid_set[idx]`), then as a member value or member (`valid_set(idx)`);
      what still is not a member of the set is out of range. The proxy receives
      the member's `.value`. */
  function ResolveEnumKey(ms: seq<EnumMember>, key: Key): (r: Option<Scalar>)
    ensures r.Some? ==> HasValue(ms, r.value)
  {
    if key.Plain? && key.v.Str? && HasName(ms, key.v.s) then Some(ValueOfName(ms, key.v.s))
    else if key.Plain? && HasValue(ms, key.v) then Some(key.v)
    else if key.Member? && HasName(Canonical(ms), key.name) then
      Some(ValueOfName(Canonical(ms), key.name))
    else None
  }

  /** `idx in valid_set` for a set that is not treated as an enum. On an enum
      class reached this way, members and member values are contained. */
  predicate Contains(vs: ValidSet, key: Key): (b: bool)
    ensures b && !vs.EnumClass? ==> key.Plain?
    ensures b && vs.Range? ==> key.v.Int?
  {
    match vs
    case Range(start, stop) => key.Plain? && key.v.Int? && start <= key.v.i < stop
    case Items(items) => key.Plain? && key.v in items
    case EnumClass(ms, _) =>
      (key.Plain? && HasValue(ms, key.v)) || (key.Member? && HasName(Canonical(ms), key.name))
  }

  /** `proxy_list[idx]`: `IndexError` before any proxy is built, or a proxy
      bound to the parent. */
  function GetItem<P>(pl: ProxyList<P>, key: Key): (r: Result<Proxy<P>, Exception>)
    ensures r.Failure? ==> r.error == IndexError
    ensures r.Success? ==> r.value.parent == pl.parent
    ensures !pl.isEnum ==> (r.Success? <==> Contains(pl.validSet, key))
    ensures !pl.isEnum && r.Success? ==> r.value.key == key
    ensures pl.isEnum && pl.validSet.EnumClass? && r.Success? ==>
      r.value.key.Plain? && HasValue(pl.validSet.members, r.value.key.v)
  {
    if pl.isEnum && pl.validSet.EnumClass? then  // only an enum class is ever flagged
      match ResolveEnumKey(pl.validSet.members, key)
      case None => Failure(IndexError)
      case Some(v) => Success(Proxy(pl.parent, Plain(v)))
    else if Contains(pl.validSet, key) then Success(Proxy(pl.parent, key))
    else Failure(IndexError)
  }

  /** The valid keys in iteration order. */
  function Keys(vs: ValidSet): (ks: seq<Key>)
    ensures vs.EnumClass? ==> |ks| == |Canonical(vs.members)|
    ensures forall k :: 0 <= k < |ks| ==> Contains(vs, ks[k])
  {
    match vs
    case Range(start, stop) =>
      seq(if stop > start then stop - start else 0, k => Plain(Int(start + k)))
    case Items(items) => seq(|items|, k requires 0 <= k < |items| => Plain(items[k]))
    case EnumClass(ms, _) =>
      var c := Canonical(ms);
      seq(|c|, k requires 0 <= k < |c| => Member(c[k].name))
  }

  /** `iter(proxy_list)`: one proxy per valid key, in order, each bound to the parent. */
  function Iter<P>(pl: ProxyList<P>): (ps: seq<Proxy<P>>)
    ensures |ps| == |Keys(pl.validSet)|
    ensures forall k :: 0 <= k < |ps| ==> ps[k] == Proxy(pl.parent, Keys(pl.validSet)[k])
  {
    var keys := Keys(pl.validSet);
    seq(|keys|, k requires 0 <= k < |keys| => Proxy(pl.parent, keys[k]))
  }

  /** `len(proxy_list)`: the size of the valid set. */
  function Len<P>(pl: ProxyList<P>): (n: nat)
    ensures n == |Iter(pl)|
  {
    match pl.validSet
    case Range(start, stop) => if stop > start then stop - start else 0
    case Items(items) => |items|
    case EnumClass(ms, _) => |Canonical(ms)|
  }

  // ---- properties ----

  /** For a range or a list, a key is accepted exactly when iteration would
      produce it, and indexing with it gives the proxy iteration gives. */
  lemma GetItemAgreesWithIter<P>(pl: ProxyList<P>, key: Key)
    requires pl.validSet.Range? || pl.validSet.Items?
    requires pl == NewProxyList(pl.parent, pl.validSet)
    ensures GetItem(pl, key).Success? <==> exists k :: 0 <= k < |Iter(pl)| && Iter(pl)[k].key == key
    ensures forall k :: 0 <= k < |Iter(pl)| && Iter(pl)[k].key == key ==>
      GetItem(pl, key) == Success(Iter(pl)[k])
  {
    var ps := Iter(pl);
    match pl.validSet
    case Range(start, stop) =>
      if Contains(pl.validSet, key) {
        var k := key.v.i - start;
        assert ps[k].key == key;
      }
    case Items(items) =>
      if Contains(pl.validSet, key) {
        var k :| 0 <= k < |items| && items[k] == key.v;
        assert ps[k].key == key;
      }
  }

  /** A channel list over `range(n)` accepts exactly the indices `0 .. n-1`. */
  lemma RangeBounds<P>(parent: P, n: int, i: int)
    ensures var r := GetItem(NewProxyList(parent, Range(0, n)), Plain(Int(i)));
      (r.Success? <==> 0 <= i < n)
      && (r.Success? ==> r.value == Proxy(parent, Plain(Int(i))))
      && (r.Failure? ==> r.error == IndexError)
  {
  }

  /** Over `range(16)`: 0 and 15 are accepted, 16 and -1 are not. */
  lemma SixteenChannelBounds<P>(parent: P)
    ensures GetItem(NewProxyList(parent, Range(0, 16)), Plain(Int(0))).Success?
    ensures GetItem(NewProxyList(parent, Range(0, 16)), Plain(Int(15))).Success?
    ensures GetItem(NewProxyList(parent, Range(0, 16)), Plain(Int(16))) == Failure(IndexError)
    ensures GetItem(NewProxyList(parent, Range(0, 16)), Plain(Int(-1))) == Failure(IndexError)
  {
    RangeBounds(parent, 16, 0);
    RangeBounds(parent, 16, 15);
  }

  /** On an enum, a string naming a member resolves to that member's value even
      when it is also another member's value: names are tried first. */
  lemma EnumNameFirst<P>(parent: P, ms: seq<EnumMember>, k: nat)
    requires UniqueNames(ms) && k < |ms|
    ensures GetItem(NewProxyList(parent, EnumClass(ms, true)), Plain(Str(ms[k].name)))
      == Success(Proxy(parent, Plain(ms[k].value)))
  {
    assert HasName(ms, ms[k].name);
    SameNameSameValue(ms, ms[k], ms);
  }

  /** On an enum, a value that names no member resolves exactly when some member
      has it, and the proxy receives that value. */
  lemma EnumValueSecond<P>(parent: P, ms: seq<EnumMember>, v: Scalar)
    requires !(v.Str? && HasName(ms, v.s))
    ensures var r := GetItem(NewProxyList(parent, EnumClass(ms, true)), Plain(v));
      (r.Success? <==> HasValue(ms, v)) && (r.Success? ==> r.value.key == Plain(v))
  {
  }

  /** An enum class that does not list `Enum` or `IntEnum` among its direct bases
      is indexed by containment: the raw key is passed on, names are not looked up. */
  lemma IndirectEnumKeepsRawKey<P>(parent: P, ms: seq<EnumMember>, key: Key)
    requires key.Plain? && HasValue(ms, key.v)
    ensures GetItem(NewProxyList(parent, EnumClass(ms, false)), key) == Success(Proxy(parent, key))
  {
  }

  /** Python refuses to declare one name twice in an enum class. */
  predicate UniqueNames(ms: seq<EnumMember>) {
    forall i, j :: 0 <= i < j < |ms| ==> ms[i].name != ms[j].name
  }

  /** Indexing an enum list with a member iteration produced gives a proxy
      holding that member's value. */
  lemma EnumIterMembersResolve<P>(parent: P, ms: seq<EnumMember>, k: nat)
    requires UniqueNames(ms) && k < Len(NewProxyList(parent, EnumClass(ms, true)))
    ensures var pl := NewProxyList(parent, EnumClass(ms, true));
      var c := Canonical(ms);
      k < |c| && GetItem(pl, Iter(pl)[k].key) == Success(Proxy(parent, Plain(c[k].value)))
  {
    var pl := NewProxyList(parent, EnumClass(ms, true));
    var c := Canonical(ms);
    assert Iter(pl)[k].key == Member(c[k].name);
    assert HasName(c, c[k].name);
    if HasName(ms, c[k].name) {
      assert ValueOfName(ms, c[k].name) == c[k].value by { SameNameSameValue(ms, c[k], ms); }
    }
    assert ValueOfName(c, c[k].name) == c[k].value by { SameNameSameValue(c, c[k], ms); }
  }

  /** Within unique names, looking up a member's name gives back its value. */
  lemma SameNameSameValue(s: seq<EnumMember>, m: EnumMember, ms: seq<EnumMember>)
    requires UniqueNames(ms) && m in ms
    requires forall x :: x in s ==> x in ms
    requires HasName(s, m.name)
    ensures ValueOfName(s, m.name) == m.value
  {
    var v := ValueOfName(s, m.name);
    var j :| 0 <= j < |s| && s[j].name == m.name && s[j].value == v;
    assert s[j] in ms;
    var a :| 0 <= a < |ms| && ms[a] == s[j];
    var b :| 0 <= b < |ms| && ms[b] == m;
    assert a == b;
  }
}
