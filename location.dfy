/**
 * The Location header of a created Result: the collection route, a slash
 * and the new id in decimal. Reading the id back out of the header is the
 * partner that shows the header names exactly the new record.
 */
module Location {
  import opened Domain

  /** The decimal digits of n, most significant first, without leading zeros. */
  function Decimal(n: nat): (s: string)
    ensures 1 <= |s|
    ensures forall i :: 0 <= i < |s| ==> '0' <= s[i] <= '9'
    ensures 1 < |s| ==> s[0] != '0'
  {
    if n < 10 then [('0' as int + n) as char]
    else Decimal(n / 10) + [('0' as int + n % 10) as char]
  }

  /** The number a string of decimal digits denotes; None for anything else. */
  function ParseDecimal(s: string): (r: Option<nat>)
    ensures r.Some? ==> 1 <= |s|
  {
    if |s| == 0 then None
    else
      var c := s[|s| - 1];
      if !('0' <= c <= '9') then None
      else
        var d := c as int - '0' as int;
        if |s| == 1 then Some(d)
        else match ParseDecimal(s[..|s| - 1])
          case None => None
          case Some(h) => Some(h * 10 + d)
  }

  lemma {:induction false} ParseDecimalOfDecimal(n: nat)
    ensures ParseDecimal(Decimal(n)) == Some(n)
  {
    if n >= 10 {
      var s := Decimal(n);
      assert s[..|s| - 1] == Decimal(n / 10);
      ParseDecimalOfDecimal(n / 10);
    }
  }

  /** `/api/v1/results/{id}` */
  function LocationOf(id: nat): (r: string)
    ensures |ROUTE| + 1 < |r| && r[..|ROUTE| + 1] == ROUTE + "/"
    ensures ParseDecimal(r[|ROUTE| + 1..]) == Some(id)
  {
    var r := ROUTE + "/" + Decimal(id);
    assert r[|ROUTE| + 1..] == Decimal(id);
    ParseDecimalOfDecimal(id);
    r
  }

  /** The id a Location header points at, if it is an item path. */
  function IdOfLocation(loc: string): Option<nat>
  {
    var prefix := ROUTE + "/";
    if |prefix| < |loc| && loc[..|prefix|] == prefix then ParseDecimal(loc[|prefix|..]) else None
  }

  /** The Location of a created record names that record and no other. */
  lemma LocationNamesId(id: nat)
    ensures IdOfLocation(LocationOf(id)) == Some(id)
  {
  }
}
