/**
 * Masking of e-mail addresses in the data the admin assistant's tools hand
 * back: the local part keeps its first character and the rest becomes '*';
 * a JSON value is walked and each string field holding an '@' is masked.
 */
module Masking {
  import opened Wrappers
  import opened Text

  /** The local part once masked: its first character, then at least one '*'. */
  function MaskLocal(local: string): (m: string)
    ensures |m| == Min(1, |local|) + Max(1, |local| - 2)
    ensures |local| > 0 ==> m[0] == local[0]
    ensures forall i :: Min(1, |local|) <= i < |m| ==> m[i] == '*'
  {
    local[..Min(1, |local|)] + Repeat('*', Max(1, |local| - 2))
  }

  /**
   * Masks the address when the text has an '@' followed by a non-empty second
   * field; only the first two '@'-separated fields are kept.
   */
  function MaskEmail(email: string): (r: string)
    ensures var f := Split(email, '@'); (|f| < 2 || f[1] == "") ==> r == email
    ensures var f := Split(email, '@'); (|f| >= 2 && f[1] != "") ==> Split(r, '@') == [MaskLocal(f[0]), f[1]]
  {
    var fields := Split(email, '@');
    if |fields| < 2 || fields[1] == "" then email
    else
      var r := MaskLocal(fields[0]) + "@" + fields[1];
      assert '@' !in MaskLocal(fields[0]) by {
        var local := fields[0];
        forall i | 0 <= i < |MaskLocal(local)| ensures MaskLocal(local)[i] != '@' {
          if i < Min(1, |local|) {
            assert MaskLocal(local)[i] == local[i];
          }
        }
      }
      assert Join([MaskLocal(fields[0]), fields[1]], "@") == r;
      SplitJoin([MaskLocal(fields[0]), fields[1]], '@');
      r
  }

  /** JSON values as the tools return them; an object is its entries in order, each key once. */
  datatype Json =
    | JNull
    | JBool(b: bool)
    | JNumber(n: real)
    | JString(s: string)
    | JArray(items: seq<Json>)
    | JObject(fields: seq<(string, Json)>)

  /** The keys of an object's entries, in order. */
  function Keys(fields: seq<(string, Json)>): (keys: seq<string>)
    ensures |keys| == |fields|
    ensures forall k :: 0 <= k < |fields| ==> keys[k] == fields[k].0
  {
    if |fields| == 0 then [] else [fields[0].0] + Keys(fields[1..])
  }

  /** A key whose value is masked even without an '@' test on the key itself. */
  predicate IsEmailKey(key: string)
  {
    key == "email" || key == "user_email"
  }

  /**
   * Null and other values that are not objects come back unchanged, arrays are
   * masked element by element, and an object gets each entry masked.
   */
  function MaskSensitiveData(value: Json): (r: Json)
    ensures !value.JArray? && !value.JObject? ==> r == value
    ensures value.JArray? ==> r.JArray? && |r.items| == |value.items|
    ensures value.JArray? ==> forall k :: 0 <= k < |value.items| ==> r.items[k] == MaskSensitiveData(value.items[k])
    ensures value.JObject? ==> r.JObject? && Keys(r.fields) == Keys(value.fields)
    ensures value.JObject? ==> forall k :: 0 <= k < |value.fields| ==>
              r.fields[k].1 == MaskEntry(value.fields[k].0, value.fields[k].1)
    decreases value, 1
  {
    match value
      case JArray(items) => JArray(MaskItems(items))
      case JObject(fields) => JObject(MaskEntries(fields))
      case _ => value
  }

  /** Each element masked on its own. */
  function MaskItems(items: seq<Json>): (r: seq<Json>)
    ensures |r| == |items|
    ensures forall k :: 0 <= k < |items| ==> r[k] == MaskSensitiveData(items[k])
    decreases items, 0
  {
    if |items| == 0 then []
    else [MaskSensitiveData(items[0])] + MaskItems(items[1..])
  }

  /** Each entry masked on its own, keeping its key. */
  function MaskEntries(fields: seq<(string, Json)>): (r: seq<(string, Json)>)
    ensures |r| == |fields|
    ensures forall k :: 0 <= k < |fields| ==>
              fields[k].1 < fields[k] && r[k] == (fields[k].0, MaskEntry(fields[k].0, fields[k].1))
    decreases fields, 0
  {
    if |fields| == 0 then []
    else
      assert fields[0].1 < fields[0];
      [(fields[0].0, MaskEntry(fields[0].0, fields[0].1))] + MaskEntries(fields[1..])
  }

  /**
   * One entry: a string holding an '@' is masked; any other value under an
   * e-mail key is copied as it is; a nested array or object is masked; and
   * everything else is copied.
   */
  function MaskEntry(key: string, value: Json): (r: Json)
    ensures value.JString? && '@' in value.s ==> r == JString(MaskEmail(value.s))
    ensures IsEmailKey(key) && !(value.JString? && '@' in value.s) ==> r == value
    ensures !IsEmailKey(key) && (value.JArray? || value.JObject?) ==> r == MaskSensitiveData(value)
    ensures !(value.JString? && '@' in value.s) && !value.JArray? && !value.JObject? ==> r == value
    decreases value, 2
  {
    if IsEmailKey(key) || (value.JString? && '@' in value.s) then
      if value.JString? && '@' in value.s then JString(MaskEmail(value.s)) else value
    else if value.JArray? || value.JObject? then MaskSensitiveData(value)
    else value
  }

  // ---------------------------------------------------------------------
  // Properties
  // ---------------------------------------------------------------------

  /** Text without an '@' is left as it is. */
  lemma NoAtUnchanged(email: string)
    requires '@' !in email
    ensures MaskEmail(email) == email
  {
    SplitJoin([email], '@');
  }

  /**
   * An address whose domain is followed by nothing or by a further '@'
   * is masked to the first character, the stars and the domain; what
   * follows the second '@' is dropped.
   */
  lemma MaskOfAddress(local: string, domain: string, tail: string)
    requires '@' !in local && '@' !in domain && domain != ""
    requires tail == "" || tail[0] == '@'
    ensures MaskEmail(local + "@" + domain + tail) == MaskLocal(local) + "@" + domain
  {
    SplitLeadingFields(local, domain, '@', tail);
  }

  /** "a@b@c" becomes "a*@b": only the first two fields survive. */
  lemma ExtraFieldsDropped()
    ensures MaskEmail("a@b@c") == "a*@b"
  {
    MaskOfAddress("a", "b", "@c");
    assert "a" + "@" + "b" + "@c" == "a@b@c";
    assert MaskLocal("a") == "a*";
  }

  /** An address with an empty domain is not masked at all. */
  lemma EmptyDomainUnchanged(local: string)
    requires '@' !in local
    ensures MaskEmail(local + "@") == local + "@"
  {
    SplitLeadingFields(local, "", '@', "");
    assert local + "@" + "" + "" == local + "@";
  }

  /** A masked address reveals of its local part no more than the first character. */
  lemma MaskRevealsFirstCharOnly(local: string, domain: string)
    requires '@' !in local && '@' !in domain && domain != ""
    ensures var r := MaskEmail(local + "@" + domain);
      && |r| == |MaskLocal(local)| + 1 + |domain|
      && (|local| > 0 ==> r[0] == local[0])
      && (forall i :: Min(1, |local|) <= i < |MaskLocal(local)| ==> r[i] == '*')
  {
    MaskOfAddress(local, domain, "");
    assert local + "@" + domain + "" == local + "@" + domain;
  }

  /** A value containing no '@' anywhere. */
  predicate NoAt(value: Json)
    decreases value
  {
    match value
      case JString(s) => '@' !in s
      case JArray(items) => forall k :: 0 <= k < |items| ==> NoAt(items[k])
      case JObject(fields) => forall k :: 0 <= k < |fields| ==> NoAt(fields[k].1)
      case _ => true
  }

  /** Data without any '@' comes back unchanged. */
  lemma {:induction false} NoAtDataUnchanged(value: Json)
    requires NoAt(value)
    ensures MaskSensitiveData(value) == value
    decreases value
  {
    match value
      case JArray(items) =>
        forall k | 0 <= k < |items| ensures MaskSensitiveData(items[k]) == items[k] {
          NoAtDataUnchanged(items[k]);
        }
        assert MaskItems(items) == items;
      case JObject(fields) =>
        forall k | 0 <= k < |fields| ensures MaskEntry(fields[k].0, fields[k].1) == fields[k].1 {
          assert fields[k].1 < fields[k];
          if fields[k].1.JArray? || fields[k].1.JObject? {
            NoAtDataUnchanged(fields[k].1);
          }
        }
        assert MaskEntries(fields) == fields;
      case _ =>
  }

  /** A string at the top level or inside an array is not masked: only object entries are. */
  lemma ArrayStringsNotMasked(s: string)
    ensures MaskSensitiveData(JString(s)) == JString(s)
    ensures MaskSensitiveData(JArray([JString(s)])) == JArray([JString(s)])
  {
  }

  /** An object under an e-mail key is copied without masking the addresses inside it. */
  lemma NestedUnderEmailKeyNotMasked(inner: string)
    ensures var nested := JObject([("address", JString(inner))]);
      MaskSensitiveData(JObject([("email", nested)])) == JObject([("email", nested)])
  {
  }
}
