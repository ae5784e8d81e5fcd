/** The VNPay payment-link builder (server/helpers/utils.js): the fixed
    parameter set, the key sort with value encoding, the string that is
    signed with HMAC-SHA512, and the redirect URL with the hash appended last. */
module PaymentLink {
  import opened Wrappers
  import opened JsNumbers
  import opened UriEncoding
  import Strings
  import Sorting

  /** The settings read from the environment: VNP_TMN_CODE, VNP_HASH_SECRET,
      VNP_URL and VNP_RETURN_URL. */
  datatype Env = Env(tmnCode: string, hashSecret: string, vnpUrl: string, returnUrl: string)

  /** A reading of the wall clock in the Asia/Ho_Chi_Minh time zone. */
  datatype DateTime = DateTime(year: int, month: int, day: int, hour: int, minute: int, second: int)

  predicate ValidDateTime(t: DateTime)
  {
    && 0 <= t.year <= 9999 && 1 <= t.month <= 12 && 1 <= t.day <= 31
    && 0 <= t.hour < 24 && 0 <= t.minute < 60 && 0 <= t.second < 60
  }

  /** `moment().format('DDHHmmss')`, the transaction reference. */
  function FormatTxnRef(t: DateTime): (r: string)
    requires ValidDateTime(t)
    ensures |r| == 8 && AllDigits(r)
  {
    FixedDigits(t.day, 2) + FixedDigits(t.hour, 2) + FixedDigits(t.minute, 2) + FixedDigits(t.second, 2)
  }

  /** `moment().format('YYYYMMDDHHmmss')`, the creation stamp. */
  function FormatCreateDate(t: DateTime): (r: string)
    requires ValidDateTime(t)
    ensures |r| == 14 && AllDigits(r)
  {
    FixedDigits(t.year, 4) + FixedDigits(t.month, 2) + FormatTxnRef(t)
  }

  /** Reading a `YYYYMMDDHHmmss` stamp back into its fields. */
  function ParseCreateDate(s: string): DateTime
    requires |s| == 14 && AllDigits(s)
  {
    DateTime(RunValue(s[0..4], 10), RunValue(s[4..6], 10), RunValue(s[6..8], 10),
             RunValue(s[8..10], 10), RunValue(s[10..12], 10), RunValue(s[12..14], 10))
  }

  /** The creation stamp is a faithful, fixed-width rendering of the clock:
      every field reads back. */
  lemma CreateDateRoundTrip(t: DateTime)
    requires ValidDateTime(t)
    ensures ParseCreateDate(FormatCreateDate(t)) == t
  {
    var s := FormatCreateDate(t);
    assert s[0..4] == FixedDigits(t.year, 4);
    assert s[4..6] == FixedDigits(t.month, 2);
    assert s[6..8] == FixedDigits(t.day, 2);
    assert s[8..10] == FixedDigits(t.hour, 2);
    assert s[10..12] == FixedDigits(t.minute, 2);
    assert s[12..14] == FixedDigits(t.second, 2);
    FixedDigitsValue(t.year, 4);
    FixedDigitsValue(t.month, 2);
    FixedDigitsValue(t.day, 2);
    FixedDigitsValue(t.hour, 2);
    FixedDigitsValue(t.minute, 2);
    FixedDigitsValue(t.second, 2);
  }

  /** HMAC-SHA512 of the data under the key, rendered as lower-case hex.
      The digest itself is not modelled; it is passed in. */
  type Hmac = (string, string) -> string

  /** A JavaScript object with string values: its own keys with their values,
      in insertion order. */
  type Object = seq<(string, string)>

  predicate DistinctKeys(obj: Object)
  {
    forall i, j :: 0 <= i < j < |obj| ==> obj[i].0 != obj[j].0
  }

  predicate AsciiObject(obj: Object)
  {
    forall i :: 0 <= i < |obj| ==> AllAscii(obj[i].0) && AllAscii(obj[i].1)
  }

  /** `obj[key]`; `None` is `undefined`. */
  function Get(obj: Object, key: string): (r: Option<string>)
    ensures r.Some? ==> exists i :: 0 <= i < |obj| && obj[i] == (key, r.value)
    ensures r.None? ==> forall i :: 0 <= i < |obj| ==> obj[i].0 != key
  {
    if obj == [] then None
    else if obj[0].0 == key then Some(obj[0].1)
    else Get(obj[1..], key)
  }

  /** The own keys of `obj`, each passed through `encodeURIComponent`. */
  function EncodedKeys(obj: Object): (keys: seq<string>)
    requires AsciiObject(obj)
    ensures |keys| == |obj|
    ensures forall i :: 0 <= i < |obj| ==> keys[i] == EncodeURIComponent(obj[i].0)
  {
    if obj == [] then [] else [EncodeURIComponent(obj[0].0)] + EncodedKeys(obj[1..])
  }

  /** The value stored under `key`, percent-encoded, with `%20` then
      rewritten as `+`. The value is looked up under the ENCODED key, so a
      key that encoding changes reads `undefined`. */
  function SortedValue(obj: Object, key: string): string
    requires AsciiObject(obj)
  {
    match Get(obj, key)
    case Some(v) => FormEncode(v)
    case None => "undefined"
  }

  /** Each key paired with its encoded value, in the order of `keys`. */
  function WithValues(obj: Object, keys: seq<string>): (r: Object)
    requires AsciiObject(obj)
    ensures |r| == |keys|
    ensures forall i :: 0 <= i < |keys| ==> r[i] == (keys[i], SortedValue(obj, keys[i]))
  {
    seq(|keys|, i requires 0 <= i < |keys| => (keys[i], SortedValue(obj, keys[i])))
  }

  /** What `sortObject` returns: the encoded keys in ascending order, each with
      its encoded value. */
  function SortedObject(obj: Object): Object
    requires AsciiObject(obj)
  {
    WithValues(obj, Sorting.SortSeq(EncodedKeys(obj), Strings.Less))
  }

  /** The `for...in` loop of `sortObject`: each own key, encoded, pushed onto `str`. */
  method CollectKeys(obj: Object) returns (str: seq<string>)
    requires AsciiObject(obj)
    ensures str == EncodedKeys(obj)
  {
    str := [];
    var i := 0;
    while i < |obj|
      invariant 0 <= i <= |obj|
      invariant |str| == i
      invariant forall m :: 0 <= m < i ==> str[m] == EncodeURIComponent(obj[m].0)
    {
      str := str + [EncodeURIComponent(obj[i].0)];
      i := i + 1;
    }
  }

  /** The index loop of `sortObject`: `sorted[str[key]] = ...` for each sorted key.
      As the keys of an object are distinct and encoding is injective, every
      assignment adds a new key at the end. */
  method FillValues(obj: Object, a: array<string>) returns (sorted: Object)
    requires AsciiObject(obj)
    ensures sorted == WithValues(obj, a[..])
  {
    sorted := [];
    var k := 0;
    while k < a.Length
      invariant 0 <= k <= a.Length
      invariant |sorted| == k
      invariant forall m :: 0 <= m < k ==> sorted[m] == (a[m], SortedValue(obj, a[m]))
    {
      sorted := sorted + [(a[k], SortedValue(obj, a[k]))];
      k := k + 1;
    }
  }

  /** `sortObject`: collect the encoded keys, `str.sort()` them in place, and
      pair each with its encoded value. */
  method SortObject(obj: Object) returns (sorted: Object)
    requires AsciiObject(obj)
    ensures sorted == SortedObject(obj)
  {
    var str := CollectKeys(obj);
    var a := new string[|str|](j requires 0 <= j < |str| => str[j]);
    assert a[..] == str;
    Sorting.SortInPlace(a, Strings.Less);
    sorted := FillValues(obj, a);
  }

  function Pair(kv: (string, string)): string
  {
    kv.0 + "=" + kv.1
  }

  /** Each pair written `key=value`, in order, joined by `&`. */
  function JoinPairs(obj: Object): string
  {
    if obj == [] then ""
    else if |obj| == 1 then Pair(obj[0])
    else Pair(obj[0]) + "&" + JoinPairs(obj[1..])
  }

  /** Joining one more pair puts exactly one `&` in front of it. */
  lemma JoinAppend(obj: Object, kv: (string, string))
    requires obj != []
    ensures JoinPairs(obj + [kv]) == JoinPairs(obj) + "&" + Pair(kv)
  {
    if |obj| > 1 {
      assert (obj + [kv])[1..] == obj[1..] + [kv];
      JoinAppend(obj[1..], kv);
    }
  }

  /** In an object with distinct keys, the lookup finds the one entry. */
  lemma {:induction false} GetFound(obj: Object, i: nat)
    requires DistinctKeys(obj) && i < |obj|
    ensures Get(obj, obj[i].0) == Some(obj[i].1)
  {
    if i > 0 {
      assert obj[0].0 != obj[i].0;
      assert obj[1..][i - 1] == obj[i];
      GetFound(obj[1..], i - 1);
    }
  }

  lemma EncodedKeysDistinct(obj: Object)
    requires AsciiObject(obj) && DistinctKeys(obj)
    ensures Sorting.Distinct(EncodedKeys(obj))
  {
    var keys := EncodedKeys(obj);
    forall i, j | 0 <= i < j < |keys|
      ensures keys[i] != keys[j]
    {
      if keys[i] == keys[j] {
        EncodeInjective(obj[i].0, obj[j].0);
      }
    }
  }

  lemma StringOrder()
    ensures Sorting.StrictTotalOrder(Strings.Less)
  {
    Strings.LessIsStrictTotalOrder();
  }

  /** Keys come out of `sortObject` in strictly ascending order: what
      `str.sort()` does to ASCII keys, which have no repeats. */
  lemma SortedObjectAscending(obj: Object)
    requires AsciiObject(obj) && DistinctKeys(obj)
    ensures var r := SortedObject(obj);
      forall i, j :: 0 <= i < j < |r| ==> Strings.Less(r[i].0, r[j].0)
  {
    var keys := Sorting.SortSeq(EncodedKeys(obj), Strings.Less);
    StringOrder();
    Sorting.SortSeqSorted(EncodedKeys(obj), Strings.Less);
    Sorting.SortSeqPermutes(EncodedKeys(obj), Strings.Less);
    EncodedKeysDistinct(obj);
    Sorting.PermutationDistinct(keys, EncodedKeys(obj));
    forall i, j | 0 <= i < j < |keys|
      ensures Strings.Less(keys[i], keys[j])
    {
      Strings.LessConnected(keys[i], keys[j]);
    }
  }

  /** `sortObject` keeps one entry per key: the result has as many entries as
      the input, each of its keys is the encoding of an input key, and an
      input key that encoding leaves alone keeps its value, encoded. */
  lemma SortedObjectEntries(obj: Object)
    requires AsciiObject(obj) && DistinctKeys(obj)
    ensures |SortedObject(obj)| == |obj|
    ensures forall j :: 0 <= j < |SortedObject(obj)| ==>
      exists i :: 0 <= i < |obj| && SortedObject(obj)[j].0 == EncodeURIComponent(obj[i].0)
    ensures forall i :: 0 <= i < |obj| && AllUnreserved(obj[i].0) ==>
      (obj[i].0, FormEncode(obj[i].1)) in SortedObject(obj)
  {
    SortedObjectKeys(obj);
    forall i | 0 <= i < |obj| && AllUnreserved(obj[i].0)
      ensures (obj[i].0, FormEncode(obj[i].1)) in SortedObject(obj)
    {
      SortedObjectKeeps(obj, i);
    }
  }

  lemma SortedObjectKeys(obj: Object)
    requires AsciiObject(obj) && DistinctKeys(obj)
    ensures |SortedObject(obj)| == |obj|
    ensures forall j :: 0 <= j < |SortedObject(obj)| ==>
      exists i :: 0 <= i < |obj| && SortedObject(obj)[j].0 == EncodeURIComponent(obj[i].0)
  {
    var enc := EncodedKeys(obj);
    var keys := Sorting.SortSeq(enc, Strings.Less);
    var r := SortedObject(obj);
    Sorting.SortSeqPermutes(enc, Strings.Less);
    forall j | 0 <= j < |r|
      ensures exists i :: 0 <= i < |obj| && r[j].0 == EncodeURIComponent(obj[i].0)
    {
      assert keys[j] in multiset(enc);
      var i :| 0 <= i < |enc| && enc[i] == keys[j];
    }
  }

  lemma SortedObjectKeeps(obj: Object, i: nat)
    requires AsciiObject(obj) && DistinctKeys(obj) && i < |obj| && AllUnreserved(obj[i].0)
    ensures (obj[i].0, FormEncode(obj[i].1)) in SortedObject(obj)
  {
    var enc := EncodedKeys(obj);
    var keys := Sorting.SortSeq(enc, Strings.Less);
    var r := SortedObject(obj);
    Sorting.SortSeqPermutes(enc, Strings.Less);
    var k := obj[i].0;
    EncodeUnreserved(k);
    assert enc[i] == k;
    assert k in multiset(keys);
    var j :| 0 <= j < |keys| && keys[j] == k;
    GetFound(obj, i);
    assert r[j] == (k, FormEncode(obj[i].1));
  }

  /** Looking a key up in the sorted parameters: an unreserved key keeps its
      value, encoded. */
  lemma SortedGet(obj: Object, i: nat)
    requires AsciiObject(obj) && DistinctKeys(obj) && i < |obj|
    requires AllUnreserved(obj[i].0)
    ensures Get(SortedObject(obj), obj[i].0) == Some(FormEncode(obj[i].1))
  {
    var r := SortedObject(obj);
    SortedObjectEntries(obj);
    SortedObjectAscending(obj);
    assert DistinctKeys(r) by {
      forall a, b | 0 <= a < b < |r|
        ensures r[a].0 != r[b].0
      {
        Strings.LessIrreflexive(r[a].0);
      }
    }
    var j :| 0 <= j < |r| && r[j] == (obj[i].0, FormEncode(obj[i].1));
    GetFound(r, j);
  }

  /** `s.split(sep)`: the pieces between separators, empty ones included. */
  function Split(s: string, sep: char): (r: seq<string>)
    ensures |r| >= 1
  {
    if s == [] then [""]
    else
      var rest := Split(s[1..], sep);
      if s[0] == sep then [""] + rest else [[s[0]] + rest[0]] + rest[1..]
  }

  predicate Without(s: string, c: char)
  {
    forall i :: 0 <= i < |s| ==> s[i] != c
  }

  lemma {:induction false} SplitNone(a: string, sep: char)
    requires Without(a, sep)
    ensures Split(a, sep) == [a]
  {
    if a != [] {
      SplitNone(a[1..], sep);
      assert a == [a[0]] + a[1..];
    }
  }

  lemma {:induction false} SplitPrefix(a: string, b: string, sep: char)
    requires Without(a, sep)
    ensures Split(a + [sep] + b, sep) == [a] + Split(b, sep)
  {
    if a == [] {
      assert (a + [sep] + b)[1..] == b;
    } else {
      assert (a + [sep] + b)[1..] == a[1..] + [sep] + b;
      SplitPrefix(a[1..], b, sep);
      assert a == [a[0]] + a[1..];
    }
  }

  /** A query component read as `key=value`: the key runs to the first `=`. */
  function ParsePair(s: string): (string, string)
  {
    if s == [] then ("", "")
    else if s[0] == '=' then ("", s[1..])
    else var kv := ParsePair(s[1..]); ([s[0]] + kv.0, kv.1)
  }

  lemma {:induction false} ParsePairOfPair(k: string, v: string)
    requires Without(k, '=')
    ensures ParsePair(Pair((k, v))) == (k, v)
    decreases |k|
  {
    if k != [] {
      assert Pair((k, v))[1..] == Pair((k[1..], v));
      ParsePairOfPair(k[1..], v);
      assert k == [k[0]] + k[1..];
    } else {
      assert Pair((k, v))[1..] == v;
    }
  }

  /** How the gateway reads a query string: split on `&`, then each
      component at its first `=`. */
  function ParseQuery(q: string): (r: Object)
  {
    var pieces := Split(q, '&');
    seq(|pieces|, i requires 0 <= i < |pieces| => ParsePair(pieces[i]))
  }

  /** Pairs that survive the trip through a query string: no `&` anywhere
      and no `=` in a key. */
  predicate QuerySafe(obj: Object)
  {
    forall i :: 0 <= i < |obj| ==> Without(obj[i].0, '&') && Without(obj[i].0, '=') && Without(obj[i].1, '&')
  }

  lemma {:induction false} SplitJoined(obj: Object)
    requires obj != [] && QuerySafe(obj)
    ensures Split(JoinPairs(obj), '&') == seq(|obj|, i requires 0 <= i < |obj| => Pair(obj[i]))
  {
    assert Without(Pair(obj[0]), '&');
    if |obj| == 1 {
      SplitNone(Pair(obj[0]), '&');
    } else {
      SplitJoined(obj[1..]);
      SplitPrefix(Pair(obj[0]), JoinPairs(obj[1..]), '&');
      assert Pair(obj[0]) + "&" + JoinPairs(obj[1..]) == Pair(obj[0]) + ['&'] + JoinPairs(obj[1..]);
    }
  }

  /** The joined `key=value` string reads back as exactly the pairs it was
      made from: no leading, trailing or doubled separator. */
  lemma QueryRoundTrip(obj: Object)
    requires obj != [] && QuerySafe(obj)
    ensures ParseQuery(JoinPairs(obj)) == obj
  {
    SplitJoined(obj);
    forall i | 0 <= i < |obj|
      ensures ParsePair(Pair(obj[i])) == obj[i]
    {
      ParsePairOfPair(obj[i].0, obj[i].1);
    }
  }

  lemma EncodedWithout(s: string, c: char)
    requires forall i :: 0 <= i < |s| ==> IsEncodedChar(s[i]) || s[i] == '+'
    requires c == '&' || c == '='
    ensures Without(s, c)
  {
  }

  lemma SortedEntrySafe(obj: Object, key: string, i: nat)
    requires AsciiObject(obj) && i < |obj| && key == EncodeURIComponent(obj[i].0)
    ensures Without(key, '&') && Without(key, '=') && Without(SortedValue(obj, key), '&')
  {
    EncodedChars(obj[i].0);
    EncodedWithout(key, '&');
    EncodedWithout(key, '=');
    var g := Get(obj, key);
    if g.Some? {
      var j :| 0 <= j < |obj| && obj[j] == (key, g.value);
      FormEncodedChars(g.value);
      EncodedWithout(FormEncode(g.value), '&');
    }
  }

  /** Whatever the input, the sorted and encoded parameters are query-safe. */
  lemma SortedObjectQuerySafe(obj: Object)
    requires AsciiObject(obj) && DistinctKeys(obj)
    ensures QuerySafe(SortedObject(obj))
  {
    var r := SortedObject(obj);
    SortedObjectEntries(obj);
    forall j | 0 <= j < |r|
      ensures Without(r[j].0, '&') && Without(r[j].0, '=') && Without(r[j].1, '&')
    {
      var i :| 0 <= i < |obj| && r[j].0 == EncodeURIComponent(obj[i].0);
      SortedEntrySafe(obj, r[j].0, i);
    }
  }

  /** The caller's inputs as the helper can encode them: ASCII text and
      real clock readings. */
  predicate ValidInputs(description: string, ipAddr: string, env: Env, orderTime: DateTime, createTime: DateTime)
  {
    && AllAscii(description) && AllAscii(ipAddr) && AllAscii(env.tmnCode) && AllAscii(env.returnUrl)
    && ValidDateTime(orderTime) && ValidDateTime(createTime)
  }

  /** The description, or the default text naming the order id when it is empty (falsy). */
  function OrderInfoText(description: string, orderId: string): string
  {
    if description == "" then "Thanh toan cho ma GD: " + orderId else description
  }

  lemma OrderInfoAscii(description: string, orderId: string)
    requires AllAscii(description) && AllDigits(orderId)
    ensures AllAscii(OrderInfoText(description, orderId))
  {
    if description == "" {
      DigitsUnreserved(orderId);
    }
  }

  /** `vnp_Amount`: the amount scaled by 100000 and truncated
      toward zero. */
  function ScaledAmount(amount: real): int
  {
    Trunc(amount * 100000.0)
  }

  lemma DigitsUnreserved(s: string)
    requires AllDigits(s)
    ensures AllUnreserved(s)
  {
  }

  lemma DecimalUnreserved(n: int)
    ensures AllUnreserved(DecimalString(n))
  {
    DigitsUnreserved(Digits(if n < 0 then -n else n));
  }

  /** `vnp_Params` before sorting, in the order the literal lists them. */
  function RawParams(amount: real, description: string, ipAddr: string, env: Env,
                     orderTime: DateTime, createTime: DateTime): (r: Object)
    requires ValidInputs(description, ipAddr, env, orderTime, createTime)
  {
    var orderId := FormatTxnRef(orderTime);
    [ ("vnp_Version", "2.1.0"),
      ("vnp_Command", "pay"),
      ("vnp_TmnCode", env.tmnCode),
      ("vnp_Locale", "vn"),
      ("vnp_CurrCode", "VND"),
      ("vnp_TxnRef", orderId),
      ("vnp_OrderInfo", EncodeURIComponent(OrderInfoText(description, orderId))),
      ("vnp_OrderType", "billpayment"),
      ("vnp_Amount", DecimalString(ScaledAmount(amount))),
      ("vnp_ReturnUrl", EncodeURIComponent(env.returnUrl)),
      ("vnp_IpAddr", ipAddr),
      ("vnp_CreateDate", FormatCreateDate(createTime)) ]
  }

  lemma RawParamsKeys(amount: real, description: string, ipAddr: string, env: Env,
                      orderTime: DateTime, createTime: DateTime)
    requires ValidInputs(description, ipAddr, env, orderTime, createTime)
    ensures var r := RawParams(amount, description, ipAddr, env, orderTime, createTime);
      |r| == 12 && DistinctKeys(r)
  {
  }

  lemma RawParamsAscii(amount: real, description: string, ipAddr: string, env: Env,
                       orderTime: DateTime, createTime: DateTime)
    requires ValidInputs(description, ipAddr, env, orderTime, createTime)
    ensures AsciiObject(RawParams(amount, description, ipAddr, env, orderTime, createTime))
  {
    RawParamsKeys(amount, description, ipAddr, env, orderTime, createTime);
    RawKeysAscii(amount, description, ipAddr, env, orderTime, createTime);
    forall i | 0 <= i < 12
      ensures AllAscii(RawParams(amount, description, ipAddr, env, orderTime, createTime)[i].1)
    {
      RawValueAscii(amount, description, ipAddr, env, orderTime, createTime, i);
    }
  }

  lemma RawKeysAscii(amount: real, description: string, ipAddr: string, env: Env,
                     orderTime: DateTime, createTime: DateTime)
    requires ValidInputs(description, ipAddr, env, orderTime, createTime)
    ensures var r := RawParams(amount, description, ipAddr, env, orderTime, createTime);
      forall i :: 0 <= i < 12 ==> AllAscii(r[i].0)
  {
    var r := RawParams(amount, description, ipAddr, env, orderTime, createTime);
    forall i | 0 <= i < 12
      ensures AllAscii(r[i].0)
    {
      KeyUnreserved(r[i].0);
    }
  }

  /** The names of the parameters are made of unreserved ASCII characters. */
  lemma KeyUnreserved(k: string)
    requires k in {"vnp_Version", "vnp_Command", "vnp_TmnCode", "vnp_Locale", "vnp_CurrCode", "vnp_TxnRef",
                   "vnp_OrderInfo", "vnp_OrderType", "vnp_Amount", "vnp_ReturnUrl", "vnp_IpAddr", "vnp_CreateDate"}
    ensures AllUnreserved(k) && AllAscii(k)
  {
    if k in {"vnp_Version", "vnp_Command", "vnp_TmnCode"} {
      KeyUnreservedA(k);
    } else if k in {"vnp_Locale", "vnp_CurrCode", "vnp_TxnRef"} {
      KeyUnreservedB(k);
    } else if k in {"vnp_OrderInfo", "vnp_OrderType", "vnp_Amount"} {
      KeyUnreservedC(k);
    } else {
      KeyUnreservedD(k);
    }
  }

  lemma KeyUnreservedA(k: string)
    requires k in {"vnp_Version", "vnp_Command", "vnp_TmnCode"}
    ensures AllUnreserved(k) && AllAscii(k)
  {
  }

  lemma KeyUnreservedB(k: string)
    requires k in {"vnp_Locale", "vnp_CurrCode", "vnp_TxnRef"}
    ensures AllUnreserved(k) && AllAscii(k)
  {
  }

  lemma KeyUnreservedC(k: string)
    requires k in {"vnp_OrderInfo", "vnp_OrderType", "vnp_Amount"}
    ensures AllUnreserved(k) && AllAscii(k)
  {
  }

  lemma KeyUnreservedD(k: string)
    requires k in {"vnp_ReturnUrl", "vnp_IpAddr", "vnp_CreateDate"}
    ensures AllUnreserved(k) && AllAscii(k)
  {
  }

  /** The fixed values are made of unreserved ASCII characters. */
  lemma ValueUnreserved(v: string)
    requires v in {"2.1.0", "pay", "vn", "VND", "billpayment"}
    ensures AllUnreserved(v) && AllAscii(v)
  {
  }

  lemma RawValueAscii(amount: real, description: string, ipAddr: string, env: Env,
                      orderTime: DateTime, createTime: DateTime, i: nat)
    requires ValidInputs(description, ipAddr, env, orderTime, createTime) && i < 12
    ensures AllAscii(RawParams(amount, description, ipAddr, env, orderTime, createTime)[i].1)
  {
    if i in {0, 1, 3, 4, 7} {
      RawLiteralAscii(amount, description, ipAddr, env, orderTime, createTime, i);
    } else if i in {6, 8, 9} {
      RawComputedAscii(amount, description, ipAddr, env, orderTime, createTime, i);
    }
  }

  /** The fixed values: version, command, locale, currency and order type. */
  lemma RawLiteralAscii(amount: real, description: string, ipAddr: string, env: Env,
                        orderTime: DateTime, createTime: DateTime, i: nat)
    requires ValidInputs(description, ipAddr, env, orderTime, createTime) && i in {0, 1, 3, 4, 7}
    ensures AllAscii(RawParams(amount, description, ipAddr, env, orderTime, createTime)[i].1)
  {
    var r := RawParams(amount, description, ipAddr, env, orderTime, createTime);
    if i in {0, 1} {
      assert r[i].1 in {"2.1.0", "pay"};
    } else {
      assert r[i].1 in {"vn", "VND", "billpayment"};
    }
    ValueUnreserved(r[i].1);
  }

  /** The values computed from the inputs: order info, amount and return URL. */
  lemma RawComputedAscii(amount: real, description: string, ipAddr: string, env: Env,
                         orderTime: DateTime, createTime: DateTime, i: nat)
    requires ValidInputs(description, ipAddr, env, orderTime, createTime) && i in {6, 8, 9}
    ensures AllAscii(RawParams(amount, description, ipAddr, env, orderTime, createTime)[i].1)
  {
    var orderId := FormatTxnRef(orderTime);
    if i == 6 {
      OrderInfoAscii(description, orderId);
      EncodeTwice(OrderInfoText(description, orderId));
    } else if i == 8 {
      DecimalUnreserved(ScaledAmount(amount));
    } else {
      EncodeTwice(env.returnUrl);
    }
  }

  /** The sorted, encoded parameters of one payment request. */
  function SortedParams(amount: real, description: string, ipAddr: string, env: Env,
                        orderTime: DateTime, createTime: DateTime): Object
    requires ValidInputs(description, ipAddr, env, orderTime, createTime)
  {
    RawParamsAscii(amount, description, ipAddr, env, orderTime, createTime);
    SortedObject(RawParams(amount, description, ipAddr, env, orderTime, createTime))
  }

  /** `signData`: the sorted pairs joined by `&`. */
  function SignData(amount: real, description: string, ipAddr: string, env: Env,
                    orderTime: DateTime, createTime: DateTime): string
    requires ValidInputs(description, ipAddr, env, orderTime, createTime)
  {
    JoinPairs(SortedParams(amount, description, ipAddr, env, orderTime, createTime))
  }

  /** The URL `createPaymentLinkAD` returns: the hash of `signData` under the
      secret is added as one more parameter, and all pairs are joined again. */
  function PaymentUrl(amount: real, description: string, ipAddr: string, env: Env,
                      orderTime: DateTime, createTime: DateTime, hmac: Hmac): string
    requires ValidInputs(description, ipAddr, env, orderTime, createTime)
  {
    var sorted := SortedParams(amount, description, ipAddr, env, orderTime, createTime);
    var signed := hmac(env.hashSecret, JoinPairs(sorted));
    env.vnpUrl + "?" + JoinPairs(sorted + [("vnp_SecureHash", signed)])
  }

  /** `createPaymentLinkAD`. The clock readings behind `orderId` and
      `createDate`, the environment and the HMAC are parameters; the
      `transactionID` argument is accepted and never read, so the URL is the
      same whatever it is. */
  method CreatePaymentLinkAD(amount: real, description: string, ipAddr: string, transactionID: string,
                             env: Env, orderTime: DateTime, createTime: DateTime, hmac: Hmac)
    returns (url: string)
    requires ValidInputs(description, ipAddr, env, orderTime, createTime)
    ensures url == PaymentUrl(amount, description, ipAddr, env, orderTime, createTime, hmac)
  {
    var orderId := FormatTxnRef(orderTime);
    var returnUrl := EncodeURIComponent(env.returnUrl);
    var createDate := FormatCreateDate(createTime);
    var vnpParams := RawParams(amount, description, ipAddr, env, orderTime, createTime);
    RawParamsAscii(amount, description, ipAddr, env, orderTime, createTime);
    RawParamsKeys(amount, description, ipAddr, env, orderTime, createTime);
    vnpParams := SortObject(vnpParams);
    var signData := JoinPairs(vnpParams);
    var signed := hmac(env.hashSecret, signData);
    vnpParams := vnpParams + [("vnp_SecureHash", signed)];
    var queryString := JoinPairs(vnpParams);
    url := env.vnpUrl + "?" + queryString;
  }

  /** The URL is the endpoint, `?`, the signed string, and the hash of that
      string appended last: the hash is not part of what it signs. */
  lemma PaymentUrlShape(amount: real, description: string, ipAddr: string, env: Env,
                        orderTime: DateTime, createTime: DateTime, hmac: Hmac)
    requires ValidInputs(description, ipAddr, env, orderTime, createTime)
    ensures var signData := SignData(amount, description, ipAddr, env, orderTime, createTime);
      PaymentUrl(amount, description, ipAddr, env, orderTime, createTime, hmac)
        == env.vnpUrl + "?" + signData + "&vnp_SecureHash=" + hmac(env.hashSecret, signData)
  {
    var raw := RawParams(amount, description, ipAddr, env, orderTime, createTime);
    assert |raw| == 12;
    RawParamsAscii(amount, description, ipAddr, env, orderTime, createTime);
    var sorted := SortedParams(amount, description, ipAddr, env, orderTime, createTime);
    var signed := hmac(env.hashSecret, JoinPairs(sorted));
    JoinAppend(sorted, ("vnp_SecureHash", signed));
    UrlConcat(env.vnpUrl, JoinPairs(sorted), signed);
  }

  lemma UrlConcat(base: string, joined: string, hash: string)
    ensures base + "?" + (joined + "&" + Pair(("vnp_SecureHash", hash)))
      == base + "?" + joined + "&vnp_SecureHash=" + hash
  {
  }

  lemma SecureHashKey(hash: string)
    ensures Without("vnp_SecureHash", '&') && Without("vnp_SecureHash", '=')
    ensures "&" + Pair(("vnp_SecureHash", hash)) == "&vnp_SecureHash=" + hash
  {
  }

  /** The sorted parameters, and the sorted parameters followed by a hash
      without `&`, read back from their joined strings. */
  lemma SortedQueryRoundTrip(obj: Object, hash: string)
    requires AsciiObject(obj) && DistinctKeys(obj)
    requires Without(hash, '&') && obj != []
    ensures ParseQuery(JoinPairs(SortedObject(obj))) == SortedObject(obj)
    ensures ParseQuery(JoinPairs(SortedObject(obj) + [("vnp_SecureHash", hash)]))
      == SortedObject(obj) + [("vnp_SecureHash", hash)]
  {
    var sorted := SortedObject(obj);
    SortedObjectQuerySafe(obj);
    QueryRoundTrip(sorted);
    var full := sorted + [("vnp_SecureHash", hash)];
    SecureHashKey(hash);
    forall i | 0 <= i < |full|
      ensures Without(full[i].0, '&') && Without(full[i].0, '=') && Without(full[i].1, '&')
    {
      if i < |sorted| {
        assert full[i] == sorted[i];
      }
    }
    QueryRoundTrip(full);
  }

  /** Read back the way the gateway reads it, the query of the URL is the
      twelve parameters in ascending key order followed by the hash, and the
      signed string is the twelve parameters alone. */
  lemma PaymentQueryParses(amount: real, description: string, ipAddr: string, env: Env,
                           orderTime: DateTime, createTime: DateTime, hmac: Hmac)
    requires ValidInputs(description, ipAddr, env, orderTime, createTime)
    requires Without(hmac(env.hashSecret, SignData(amount, description, ipAddr, env, orderTime, createTime)), '&')
    ensures var sorted := SortedParams(amount, description, ipAddr, env, orderTime, createTime);
      var signData := SignData(amount, description, ipAddr, env, orderTime, createTime);
      var url := PaymentUrl(amount, description, ipAddr, env, orderTime, createTime, hmac);
      && |sorted| == 12
      && (forall i, j :: 0 <= i < j < |sorted| ==> Strings.Less(sorted[i].0, sorted[j].0))
      && ParseQuery(signData) == sorted
      && |url| > |env.vnpUrl| && url[..|env.vnpUrl| + 1] == env.vnpUrl + "?"
      && ParseQuery(url[|env.vnpUrl| + 1..]) == sorted + [("vnp_SecureHash", hmac(env.hashSecret, signData))]
  {
    var raw := RawParams(amount, description, ipAddr, env, orderTime, createTime);
    assert |raw| == 12;
    RawParamsAscii(amount, description, ipAddr, env, orderTime, createTime);
    RawParamsKeys(amount, description, ipAddr, env, orderTime, createTime);
    var sorted := SortedParams(amount, description, ipAddr, env, orderTime, createTime);
    var signed := hmac(env.hashSecret, JoinPairs(sorted));
    SortedObjectAscending(raw);
    SortedQueryRoundTrip(raw, signed);
    var url := PaymentUrl(amount, description, ipAddr, env, orderTime, createTime, hmac);
    var query := JoinPairs(sorted + [("vnp_SecureHash", signed)]);
    assert url == env.vnpUrl + "?" + query;
    assert url[|env.vnpUrl| + 1..] == query;
  }

  /** The parameters whose values are fixed words or digit strings (version
      `2.1.0`, command `pay`, locale `vn`, currency `VND`, order type
      `billpayment`, the order reference, the amount and the creation stamp)
      are sent under their own names, unchanged. */
  lemma PaymentPlainParams(amount: real, description: string, ipAddr: string, env: Env,
                           orderTime: DateTime, createTime: DateTime, k: nat)
    requires ValidInputs(description, ipAddr, env, orderTime, createTime)
    requires k in {0, 1, 3, 4, 5, 7, 8, 11}
    ensures var raw := RawParams(amount, description, ipAddr, env, orderTime, createTime);
      && |raw| == 12 && AllUnreserved(raw[k].1)
      && Get(SortedParams(amount, description, ipAddr, env, orderTime, createTime), raw[k].0) == Some(raw[k].1)
  {
    var raw := RawParams(amount, description, ipAddr, env, orderTime, createTime);
    RawParamsAscii(amount, description, ipAddr, env, orderTime, createTime);
    RawParamsKeys(amount, description, ipAddr, env, orderTime, createTime);
    KeyUnreserved(raw[k].0);
    if k in {0, 1, 3, 4, 7} {
      ValueUnreserved(raw[k].1);
    } else if k == 5 {
      DigitsUnreserved(FormatTxnRef(orderTime));
    } else if k == 8 {
      DecimalUnreserved(ScaledAmount(amount));
    } else if k == 11 {
      DigitsUnreserved(FormatCreateDate(createTime));
    }
    assert AllUnreserved(raw[k].0) && AllUnreserved(raw[k].1);
    SortedGet(raw, k);
    EncodeUnreserved(raw[k].1);
  }

  /** The terminal code (`vnp_TmnCode`) and the caller's address
      (`vnp_IpAddr`) are encoded once. */
  lemma PaymentEncodedParams(amount: real, description: string, ipAddr: string, env: Env,
                             orderTime: DateTime, createTime: DateTime, k: nat)
    requires ValidInputs(description, ipAddr, env, orderTime, createTime)
    requires k in {2, 10}
    ensures var raw := RawParams(amount, description, ipAddr, env, orderTime, createTime);
      && |raw| == 12 && AllAscii(raw[k].1)
      && Get(SortedParams(amount, description, ipAddr, env, orderTime, createTime), raw[k].0)
        == Some(FormEncode(raw[k].1))
  {
    var raw := RawParams(amount, description, ipAddr, env, orderTime, createTime);
    RawParamsAscii(amount, description, ipAddr, env, orderTime, createTime);
    RawParamsKeys(amount, description, ipAddr, env, orderTime, createTime);
    KeyUnreserved(raw[k].0);
    SortedGet(raw, k);
  }

  /** `vnp_Amount` reads back as the amount times 100000, truncated. */
  lemma PaymentAmount(amount: real, description: string, ipAddr: string, env: Env,
                      orderTime: DateTime, createTime: DateTime)
    requires ValidInputs(description, ipAddr, env, orderTime, createTime)
    ensures var raw := RawParams(amount, description, ipAddr, env, orderTime, createTime);
      && |raw| == 12 && raw[8].0 == "vnp_Amount"
      && ParseInt(raw[8].1) == Some(ScaledAmount(amount))
      && (amount >= 0.0 ==> ScaledAmount(amount) as real <= amount * 100000.0 < ScaledAmount(amount) as real + 1.0)
  {
    var raw := RawParams(amount, description, ipAddr, env, orderTime, createTime);
    ReadsBack(raw[8].1, ScaledAmount(amount));
  }

  lemma ReadsBack(s: string, n: int)
    requires s == DecimalString(n)
    ensures ParseInt(s) == Some(n)
  {
    ParseDecimal(n);
  }

  /** `vnp_OrderInfo` (k = 6) and `vnp_ReturnUrl` (k = 9) are encoded
      before the sort and again inside it: the value sent is the first
      encoding with every `%` escaped as `%25`, so a space in either is sent as
      `%2520`. */
  lemma PaymentDoubleEncoding(amount: real, description: string, ipAddr: string, env: Env,
                              orderTime: DateTime, createTime: DateTime, k: nat)
    requires ValidInputs(description, ipAddr, env, orderTime, createTime)
    requires k in {6, 9}
    ensures var raw := RawParams(amount, description, ipAddr, env, orderTime, createTime);
      var text := if k == 6 then OrderInfoText(description, FormatTxnRef(orderTime)) else env.returnUrl;
      && |raw| == 12 && AllAscii(text) && raw[k].1 == EncodeURIComponent(text)
      && Get(SortedParams(amount, description, ipAddr, env, orderTime, createTime), raw[k].0)
        == Some(EscapePercent(EncodeURIComponent(text)))
  {
    var raw := RawParams(amount, description, ipAddr, env, orderTime, createTime);
    RawParamsAscii(amount, description, ipAddr, env, orderTime, createTime);
    RawParamsKeys(amount, description, ipAddr, env, orderTime, createTime);
    KeyUnreserved(raw[k].0);
    if k == 6 {
      OrderInfoAscii(description, FormatTxnRef(orderTime));
      TwiceSent(raw, 6, OrderInfoText(description, FormatTxnRef(orderTime)));
    } else {
      TwiceSent(raw, 9, env.returnUrl);
    }
  }

  lemma TwiceSent(obj: Object, k: nat, text: string)
    requires AsciiObject(obj) && DistinctKeys(obj) && k < |obj| && AllUnreserved(obj[k].0)
    requires AllAscii(text) && obj[k].1 == EncodeURIComponent(text)
    ensures Get(SortedObject(obj), obj[k].0) == Some(EscapePercent(EncodeURIComponent(text)))
  {
    EncodeTwice(text);
    SortedGet(obj, k);
  }
}
