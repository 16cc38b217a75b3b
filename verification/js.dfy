/** The few JavaScript value conventions the route handlers rely on:
    absent fields, truthiness, `x || default`, the number `parseInt`
    produces from a request parameter, and `Math.ceil` of a quotient. */
module Js {

  /** A field of a request body or query string that may be absent. */
  datatype Option<T> = None | Some(value: T)

  /** The number obtained from a request parameter by `parseInt` or
      `Number`: either NaN (no leading digits) or an integer. */
  datatype Num = NaN | Int(n: int)

  /** A request-body value that a handler tests for truthiness and then
      passes through `parseInt`: the test sees the raw value (the string
      "0" and the number 0.5 are truthy, the number 0 is not), the store
      gets the parsed number (0 for both of those, NaN for "abc"). */
  datatype Raw = Raw(truthy: bool, parsed: Num)

  /** Truthiness of a raw body field: absent is falsy. */
  predicate TruthyRaw(x: Option<Raw>) {
    x.Some? && x.value.truthy
  }

  /** Truthiness of a numeric body field: absent and 0 are falsy. */
  predicate TruthyInt(x: Option<int>) {
    x.Some? && x.value != 0
  }

  /** Truthiness of a string field: absent and "" are falsy. */
  predicate TruthyStr(x: Option<string>) {
    x.Some? && x.value != ""
  }

  /** `x || d` on a string field. */
  function OrStr(x: Option<string>, d: string): string {
    if TruthyStr(x) then x.value else d
  }

  /** `x || null` on a string field: the empty string also becomes null. */
  function OrNull(x: Option<string>): Option<string> {
    if TruthyStr(x) then x else None
  }

  /** `parseInt(p) || d`: NaN and 0 both fall back to `d`. */
  function NumOr(p: Num, d: int): (r: int)
    ensures p.Int? && p.n != 0 ==> r == p.n
    ensures !(p.Int? && p.n != 0) ==> r == d
    ensures d != 0 ==> r != 0
  {
    if p.Int? && p.n != 0 then p.n else d
  }

  /** ToIntegerOrInfinity as `Array.prototype.slice` applies it to its
      arguments: NaN counts as 0. */
  function ToInteger(p: Num): int {
    if p.NaN? then 0 else p.n
  }

  /** `p + q` on two parsed numbers: NaN as soon as either side is. */
  function AddNum(p: Num, q: Num): (r: Num)
    ensures r.NaN? <==> p.NaN? || q.NaN?
    ensures r.Int? ==> r.n == p.n + q.n
  {
    if p.NaN? || q.NaN? then NaN else Int(p.n + q.n)
  }

  /** `Math.ceil(t / l)` for a count `t` and a non-zero divisor `l`,
      characterised by the defining inequalities of the ceiling. */
  function CeilDiv(t: nat, l: int): (r: int)
    requires l != 0
    ensures l > 0 ==> (r - 1) * l < t <= r * l
    ensures l < 0 ==> r * l <= t < (r - 1) * l
  {
    if l > 0 then
      var q := (t + l - 1) / l;
      var m := (t + l - 1) % l;
      assert t + l - 1 == q * l + m && 0 <= m < l;
      assert q * l == t + l - 1 - m;
      assert (q - 1) * l == q * l - l;
      q
    else
      var q := t / -l;
      var m := t % -l;
      assert t == q * -l + m && 0 <= m < -l;
      assert -q * l == q * -l;
      assert (-q - 1) * l == -q * l - l;
      -q
  }
}
