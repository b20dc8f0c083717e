/** The static tables of `CCInfo` (ccinfo.cc:410-453). */
module Tables {
  import opened Bytes

  /** Canned terminal values for PDOL tags (ccinfo.cc:410-422). */
  const PdolValues: map<nat, seq<byte>> := map[
    0x9F59 := [0xC8, 0x80, 0x00],                    // terminal transaction information
    0x9F5A := [0x00],                                // terminal transaction type
    0x9F58 := [0x01],                                // merchant type indicator
    0x9F66 := [0xB6, 0x20, 0xC0, 0x00],              // terminal transaction qualifiers
    0x9F02 := [0x00, 0x00, 0x10, 0x00, 0x00, 0x00],  // amount, authorised
    0x9F03 := [0x00, 0x00, 0x00, 0x00, 0x00, 0x00],  // amount, other
    0x9F1A := [0x01, 0x24],                          // terminal country code
    0x5F2A := [0x01, 0x24],                          // transaction currency code
    0x95 := [0x00, 0x00, 0x00, 0x00, 0x00],          // terminal verification results
    0x9A := [0x15, 0x01, 0x01],                      // transaction date
    0x9C := [0x00],                                  // transaction type
    0x9F37 := [0x82, 0x3D, 0xDE, 0x7A]               // unpredictable number
  ]

  /** Labels of the log-format tags (ccinfo.cc:424-435). */
  const LogFormatTags: map<nat, string> := map[
    0x9A := "Date",
    0x9C := "Type",
    0x9F21 := "Time",
    0x9F1A := "Country",
    0x9F27 := "Crypto info",
    0x5F2A := "Currency",
    0x9F02 := "Amount",
    0x9F4E := "Merchant",
    0x9F36 := "Counter"
  ]

  /** ISO 3166-1 numeric country codes, written as BCD-looking hex (ccinfo.cc:437-444). */
  const CountryCodes: map<nat, string> := map[
    0x756 := "CHE",
    0x250 := "FRA",
    0x826 := "GBR",
    0x124 := "CAN",
    0x840 := "USA"
  ]

  /** ISO 4217 numeric currency codes, written as BCD-looking hex (ccinfo.cc:446-453). */
  const CurrencyCodes: map<nat, string> := map[
    0x756 := "CHF",
    0x978 := "EUR",
    0x826 := "GBP",
    0x124 := "CAD",
    0x840 := "USD"
  ]
}
