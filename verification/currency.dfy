/** `currency.Amount`: a currency code and an amount.  Go stores the amount as a
    float64; the model stores it exactly, in hundredths of the currency unit. */
module Currency {
  datatype Amount = Amount(code: string, hundredths: int)

  const COP: string := "COP"
}
