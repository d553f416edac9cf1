/** What every order is: a buy or a sell. */
module Orders {
  datatype Side = Buy | Sell
}
