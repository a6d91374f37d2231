/** The navigation routes: the main screen and the item detail screen with its id argument. */
module Navigation {
  import opened Wrappers

  /** Kotlin's `Int`. */
  newtype Int32 = x: int | -0x8000_0000 <= x < 0x8000_0000

  /** `Screen.Main.route`. */
  const MainRoute: string := "main"

  /** The detail route's fixed part, before its argument. */
  const DetailPrefix: string := "item_detail/"

  /** The argument placeholder of the detail route. */
  const Placeholder: string := "{itemId}"

  /** `Screen.ItemDetail.route`: the prefix followed by the placeholder. */
  const ItemDetailRoute: string := DetailPrefix + Placeholder

  function DigitChar(d: nat): (c: char)
    requires d < 10
    ensures '0' <= c <= '9'
  {
    (d + '0' as int) as char
  }

  /** The decimal digits of a natural number, without leading zeros. */
  function NatDecimal(n: nat): (s: string)
    ensures |s| > 0
    ensures forall i :: 0 <= i < |s| ==> '0' <= s[i] <= '9'
    ensures s[0] == '0' ==> n == 0
  {
    if n < 10 then [DigitChar(n)] else NatDecimal(n / 10) + [DigitChar(n % 10)]
  }

  /** Kotlin's string template of an `Int`: a minus sign for negative values, then the digits. */
  function Decimal(n: Int32): (s: string)
    ensures |s| > 0
    ensures n < 0 <==> s[0] == '-'
  {
    if n < 0 then "-" + NatDecimal(-(n as int)) else NatDecimal(n as int)
  }

  /** `ItemDetail.createRoute(itemId)`. */
  function CreateRoute(itemId: Int32): (r: string)
    ensures |r| > |DetailPrefix| && r[..|DetailPrefix|] == DetailPrefix
    ensures r[|DetailPrefix|..] == Decimal(itemId)
  {
    var r := DetailPrefix + Decimal(itemId);
    assert r[|DetailPrefix|..] == Decimal(itemId);
    r
  }

  /** `createRoute` fills the detail route's placeholder with the decimal id. */
  lemma CreateRouteFillsPlaceholder(itemId: Int32)
    ensures ItemDetailRoute[..|ItemDetailRoute| - |Placeholder|] == DetailPrefix
    ensures ItemDetailRoute[|ItemDetailRoute| - |Placeholder|..] == Placeholder
    ensures CreateRoute(itemId) == ItemDetailRoute[..|ItemDetailRoute| - |Placeholder|] + Decimal(itemId)
  {
    assert ItemDetailRoute[..|ItemDetailRoute| - |Placeholder|] == DetailPrefix;
    assert ItemDetailRoute[|ItemDetailRoute| - |Placeholder|..] == Placeholder;
  }

  /** A detail route is never the main route. */
  lemma CreateRouteIsNotMain(itemId: Int32)
    ensures CreateRoute(itemId) != MainRoute
  {
    assert CreateRoute(itemId)[0] == 'i';
  }

  function DigitValue(c: char): (d: nat)
    requires '0' <= c <= '9'
    ensures d < 10
  {
    c as int - '0' as int
  }

  /** The number a string of digits denotes. */
  function ParseNat(s: string): nat
    requires forall i :: 0 <= i < |s| ==> '0' <= s[i] <= '9'
  {
    if |s| == 0 then 0 else ParseNat(s[..|s| - 1]) * 10 + DigitValue(s[|s| - 1])
  }

  /** Reading the digits back gives the number. */
  lemma {:induction false} ParseNatDecimal(n: nat)
    ensures ParseNat(NatDecimal(n)) == n
  {
    if n >= 10 {
      ParseNatDecimal(n / 10);
      var s := NatDecimal(n);
      assert s[..|s| - 1] == NatDecimal(n / 10);
    }
  }

  /** The id a detail route carries, read back as the navigation host does for an `Int` argument. */
  function RouteArgument(route: string): (r: Option<int>)
  {
    if |route| <= |DetailPrefix| || route[..|DetailPrefix|] != DetailPrefix then None
    else
      var arg := route[|DetailPrefix|..];
      if arg[0] == '-' && |arg| > 1 && forall i :: 1 <= i < |arg| ==> '0' <= arg[i] <= '9' then
        var digits := arg[1..];
        assert forall i :: 0 <= i < |digits| ==> digits[i] == arg[i + 1];
        Some(-(ParseNat(digits) as int))
      else if forall i :: 0 <= i < |arg| ==> '0' <= arg[i] <= '9' then Some(ParseNat(arg))
      else None
  }

  /** The route carries its id: reading it back gives the id it was created from. */
  lemma {:induction false} RouteArgumentRoundTrip(itemId: Int32)
    ensures RouteArgument(CreateRoute(itemId)) == Some(itemId as int)
  {
    var arg := CreateRoute(itemId)[|DetailPrefix|..];
    assert arg == Decimal(itemId);
    if itemId < 0 {
      assert arg[1..] == NatDecimal(-(itemId as int));
      ParseNatDecimal(-(itemId as int));
    } else {
      ParseNatDecimal(itemId as int);
    }
  }

  /** Different ids give different routes. */
  lemma {:induction false} CreateRouteInjective(a: Int32, b: Int32)
    requires a != b
    ensures CreateRoute(a) != CreateRoute(b)
  {
    RouteArgumentRoundTrip(a);
    RouteArgumentRoundTrip(b);
  }
}
