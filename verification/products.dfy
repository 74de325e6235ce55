/**
 * The product catalog the page builds from its product cards: a plain
 * JavaScript object keyed by the card's `data-id` text.  Only the parts the
 * cart and the wizard read are modelled; how the records are scraped from the
 * markup is not.
 */
module Products {
  import opened Wrappers

  /** One catalog record; `price` is the non-negative number read from the card. */
  datatype Product = Product(id: int, name: string, price: nat, img: string, desc: string)

  /**
   * The catalog object: `keys` lists the property names in the order they
   * were first assigned, `entries` holds the record under each name.
   */
  datatype Catalog = Catalog(keys: seq<string>, entries: map<string, Product>)

  /** `products[key]`: the record, or `undefined` when no card carries that id. */
  function Lookup(c: Catalog, key: string): Option<Product> {
    if key in c.entries then Some(c.entries[key]) else None
  }

  predicate IsDigit(ch: char) {
    '0' <= ch <= '9'
  }

  predicate AllDigits(s: string) {
    forall i :: 0 <= i < |s| ==> IsDigit(s[i])
  }

  /** The number a string of decimal digits denotes. */
  function DigitsValue(s: string): nat
    requires AllDigits(s)
  {
    if |s| == 0 then 0
    else DigitsValue(s[..|s| - 1]) * 10 + (s[|s| - 1] as int - '0' as int)
  }

  /** The largest array index of ECMAScript: 2^32 - 2. */
  const MaxArrayIndex: nat := 0xFFFF_FFFE

  /**
   * A property name that is an array index: the canonical decimal spelling
   * (no sign, no leading zero) of a number in 0 .. 2^32 - 2.
   */
  predicate IsArrayIndex(k: string) {
    && |k| > 0
    && AllDigits(k)
    && (k[0] != '0' || k == "0")
    && DigitsValue(k) <= MaxArrayIndex
  }

  /** Some listed key is an array index. */
  predicate HasIndexKey(keys: seq<string>) {
    exists i :: 0 <= i < |keys| && IsArrayIndex(keys[i])
  }

  /** The array-index key of least numeric value, if any. */
  function LeastIndexKey(keys: seq<string>): (r: Option<string>)
    ensures r.None? <==> !HasIndexKey(keys)
    ensures r.Some? ==> r.value in keys && IsArrayIndex(r.value)
    ensures r.Some? ==> forall i :: 0 <= i < |keys| && IsArrayIndex(keys[i]) ==>
                          DigitsValue(r.value) <= DigitsValue(keys[i])
  {
    if |keys| == 0 then None
    else
      var rest := LeastIndexKey(keys[1..]);
      assert forall i :: 1 <= i < |keys| ==> keys[i] == keys[1..][i - 1];
      if !IsArrayIndex(keys[0]) then rest
      else match rest
        case None => Some(keys[0])
        case Some(k) => if DigitsValue(k) < DigitsValue(keys[0]) then Some(k) else Some(keys[0])
  }

  /**
   * `Object.keys(products)[0]`.  Object property order puts array-index keys
   * first, in ascending numeric order, and only then the other keys in the
   * order they were created; so the first key is the least numeric id when
   * there is one, and the first-created key otherwise.
   */
  function FirstKey(keys: seq<string>): (r: Option<string>)
    ensures r.None? <==> |keys| == 0
    ensures r.Some? ==> r.value in keys
    ensures HasIndexKey(keys) ==>
              && r.Some? && IsArrayIndex(r.value)
              && forall i :: 0 <= i < |keys| && IsArrayIndex(keys[i]) ==>
                   DigitsValue(r.value) <= DigitsValue(keys[i])
    ensures !HasIndexKey(keys) && |keys| > 0 ==> r == Some(keys[0])
  {
    match LeastIndexKey(keys)
    case Some(k) => Some(k)
    case None => if |keys| == 0 then None else Some(keys[0])
  }

  /**
   * The first key is not the first card on the page when a card with a
   * smaller numeric id comes later: cards "2" then "1" yield "1".
   */
  lemma FirstKeyIsNotInsertionOrder()
    ensures FirstKey(["2", "1"]) == Some("1")
  {
    var keys := ["2", "1"];
    assert IsArrayIndex(keys[0]) && IsArrayIndex(keys[1]);
    assert DigitsValue("2") == 2 && DigitsValue("1") == 1 by {
      assert "2"[..0] == [] && "1"[..0] == [];
    }
  }
}
