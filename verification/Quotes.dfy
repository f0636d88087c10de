/** The quote record shared by the generator, the hub and the stream workers. */
module Quotes {
  type U32 = n: nat | n < 0x1_0000_0000
  type U64 = n: nat | n < 0x1_0000_0000_0000_0000

  datatype Quote = Quote(ticker: string, price: real, volume: U32, timestamp: U64)

  type Batch = seq<Quote>
}
