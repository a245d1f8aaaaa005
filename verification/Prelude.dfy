/** Types every module shares, and the tenant guard. */
module Prelude {
  datatype Option<+T> = None | Some(value: T)

  datatype Result<+T, +E> = Ok(value: T) | Err(error: E)

  datatype Role =
    | Superadmin | HoaAdmin | HoaChairman | Dispatcher | Security | ResidentOwner | ResidentTenant

  datatype User = User(id: nat, role: Role, tenant: Option<nat>)

  /** What `trim` removes. */
  predicate IsSpace(c: char) {
    c in {' ', '\t', '\n', '\r', '\U{0B}', '\U{0C}', '\U{A0}', '\U{1680}', '\U{2028}', '\U{2029}', '\U{202F}',
          '\U{205F}',
          '\U{3000}', '\U{FEFF}'} || '\U{2000}' <= c <= '\U{200A}'
  }

  /** The white space and line ends of ECMAScript, by code point. */
  lemma BlanksAre(c: char)
    ensures IsSpace(c) <==>
      || 9 <= c as int <= 13 || c as int in {32, 160, 0x1680, 0x202F, 0x205F, 0x3000, 0xFEFF}
      || 0x2000 <= c as int <= 0x200A || 0x2028 <= c as int <= 0x2029
  {
  }

  predicate BelongsToTenant(user: User, tenant: nat) {
    user.role == Superadmin || user.tenant == Some(tenant)
  }
}

/** The two rounding functions of the source, over exact numbers. */
module Rounding {
  /** `Math.round`: to the nearest integer, halves upwards. Also what `toFixed` does to the
      last kept digit of a non-negative number. */
  function Round(x: real): (n: int)
    ensures x - 0.5 < n as real <= x + 0.5
  {
    (x + 0.5).Floor
  }

  /** `Math.round(n / d)` on integers. */
  function RoundDiv(n: int, d: int): (q: int)
    requires d > 0
    ensures 2 * n - d < 2 * d * q <= 2 * n + d
  {
    (2 * n + d) / (2 * d)
  }

  lemma RoundMonotone(x: real, y: real)
    requires x <= y
    ensures Round(x) <= Round(y)
  {
  }

  lemma RoundDivMonotone(n: int, m: int, d: int)
    requires d > 0 && n <= m
    ensures RoundDiv(n, d) <= RoundDiv(m, d)
  {
    var p, q := RoundDiv(n, d), RoundDiv(m, d);
    if p > q {
      assert 2 * d * p >= 2 * d * (q + 1) by {
        assert p >= q + 1;
        MulLe(q + 1, p, 2 * d);
      }
      assert false;
    }
  }

  /** `Math.ceil(n / d)` on integers. */
  function CeilDiv(n: int, d: int): (q: int)
    requires d > 0
    ensures n <= d * q < n + d
  {
    (n + d - 1) / d
  }

  lemma MulLe(a: int, b: int, k: int)
    requires a <= b && 0 <= k
    ensures k * a <= k * b
  {
  }
}
