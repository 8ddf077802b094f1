/** The unit a page chooses when it shows an amount of won: 억 (10^8),
    만 (10^4), or plain digits. The digits themselves come from
    `toFixed` and `toLocaleString` and are not modelled; each case keeps the
    exact quotient it would format. */
module Money {

  const Eok: real := 100000000.0
  const Man: real := 10000.0

  datatype Currency =
    | InEok(eok: real)     // `${(num / 100000000).toFixed(1)}억`
    | InMan(man: real)     // `${(num / 10000).toFixed(0)}만`
    | Plain(won: real)     // `num.toLocaleString('ko-KR')`

  /** The amount of won a formatted value stands for. */
  function Value(c: Currency): real {
    match c
    case InEok(e) => e * Eok
    case InMan(m) => m * Man
    case Plain(w) => w
  }

  /** The shape a formatter produces: at least one 억, between one 만 and
      one 억, or below one 만. */
  predicate Normalized(c: Currency) {
    match c
    case InEok(e) => e >= 1.0
    case InMan(m) => 1.0 <= m && m * Man < Eok
    case Plain(w) => w < Man
  }
}
