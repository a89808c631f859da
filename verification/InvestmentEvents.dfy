/** Investment events and the two ways the program identifies the instrument they trade. */
module InvestmentEvents {
  import opened Outcomes

  datatype EventType = MarketBuy | MarketSell | NonMarket(name: string)

  /** The columns of an event that validation and the cost basis look at; dates are day numbers. */
  datatype EventData = EventData(
    date: int,
    eventType: EventType,
    ticker: Option<string>,
    isin: Option<string>,
    quantity: Option<real>,
    price: Option<real>,
    amount: real,
    fees: Option<real>,
    taxes: Option<real>,
    currency: string)

  datatype Event = Event(id: nat, data: EventData)

  /** The key the cost-basis fold groups by: columns as stored. */
  datatype RawKey = RawKey(ticker: Option<string>, isin: Option<string>, currency: string)

  /** The key the sell validation groups by: missing text is empty, currency is upper case. */
  datatype MarketKey = MarketKey(ticker: string, isin: string, currency: string)

  predicate IsMarket(d: EventData) {
    d.eventType.MarketBuy? || d.eventType.MarketSell?
  }

  function RawKeyOf(d: EventData): RawKey {
    RawKey(d.ticker, d.isin, d.currency)
  }

  function UpperChar(c: char): char {
    if 'a' <= c <= 'z' then (c as int - 'a' as int + 'A' as int) as char else c
  }

  function Upper(s: string): string {
    seq(|s|, i requires 0 <= i < |s| => UpperChar(s[i]))
  }

  function Normalise(r: RawKey): MarketKey {
    MarketKey(r.ticker.GetOr(""), r.isin.GetOr(""), Upper(r.currency))
  }

  function MarketKeyOf(d: EventData): MarketKey {
    Normalise(RawKeyOf(d))
  }

  predicate IsSpace(c: char) {
    || 0x09 <= c as int <= 0x0D || 0x1C <= c as int <= 0x20 || 0x2000 <= c as int <= 0x200A
    || c as int in {0x85, 0xA0, 0x1680, 0x2028, 0x2029, 0x202F, 0x205F, 0x3000}
  }

  /** True when stripping white space leaves something. */
  predicate HasText(s: string) {
    exists i :: 0 <= i < |s| && !IsSpace(s[i])
  }

  predicate HasIdentity(r: RawKey) {
    HasText(r.ticker.GetOr("")) || HasText(r.isin.GetOr(""))
  }
}
