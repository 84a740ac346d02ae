/** The pure helpers of lib/utils.ts. */
module Utils {

  import opened Wrappers
  import opened Strings

  // ---------------------------------------------------------------------------
  // Stock levels

  /** The three stock levels of an inventory row. */
  datatype StockLevel = High | Low | Critical

  /**
   * `getStockLevel`: the critical threshold is tested first, then the alert
   * threshold; anything above both is healthy.
   */
  function GetStockLevel(quantity: int, alertThreshold: int, criticalThreshold: int): (level: StockLevel)
    ensures level == Critical <==> quantity <= criticalThreshold
    ensures level == Low <==> criticalThreshold < quantity <= alertThreshold
    ensures level == High <==> quantity > criticalThreshold && quantity > alertThreshold
  {
    if quantity <= criticalThreshold then Critical
    else if quantity <= alertThreshold then Low
    else High
  }

  /** With inverted thresholds (critical above alert) the level is never `Low`. */
  lemma LowUnreachableWhenInverted(quantity: int, alertThreshold: int, criticalThreshold: int)
    requires criticalThreshold > alertThreshold
    ensures GetStockLevel(quantity, alertThreshold, criticalThreshold) != Low
  {
  }

  /**
   * With ordered thresholds a row is not healthy exactly when its quantity is
   * at most the alert threshold: the test the admin low-stock counter uses.
   */
  lemma NotHighIffAtMostAlert(quantity: int, alertThreshold: int, criticalThreshold: int)
    requires criticalThreshold <= alertThreshold
    ensures GetStockLevel(quantity, alertThreshold, criticalThreshold) != High <==> quantity <= alertThreshold
  {
  }

  /** `getStockLevelColor`: green, yellow and red Tailwind classes. */
  function GetStockLevelColor(level: StockLevel): (color: string)
    ensures "bg-green" <= color <==> level == High
    ensures "bg-yellow" <= color <==> level == Low
    ensures "bg-red" <= color <==> level == Critical
  {
    // The three class lists first differ at their fourth character.
    var color := match level
      case High => "bg-green-100 text-green-700"
      case Low => "bg-yellow-100 text-yellow-700"
      case Critical => "bg-red-100 text-red-700";
    assert color[3] == (match level case High => 'g' case Low => 'y' case Critical => 'r');
    color
  }

  /** The three levels get three different colours, led by green, yellow and red. */
  lemma StockLevelColorsDistinct(a: StockLevel, b: StockLevel)
    ensures GetStockLevelColor(a) == GetStockLevelColor(b) <==> a == b
    ensures "bg-green" <= GetStockLevelColor(High)
    ensures "bg-yellow" <= GetStockLevelColor(Low)
    ensures "bg-red" <= GetStockLevelColor(Critical)
  {
  }

  // ---------------------------------------------------------------------------
  // Order status lookups

  /** The colour classes of the six order statuses. */
  const OrderStatusColors: map<string, string> := map[
    "quote" := "bg-gray-100 text-gray-700",
    "confirmed" := "bg-blue-100 text-blue-700",
    "production" := "bg-yellow-100 text-yellow-700",
    "delivered_eonite" := "bg-purple-100 text-purple-700",
    "available" := "bg-green-100 text-green-700",
    "cancelled" := "bg-red-100 text-red-700"
  ]

  const DefaultStatusColor := "bg-gray-100 text-gray-700"

  /** The display labels of the six order statuses. */
  const OrderStatusLabels: map<string, string> := map[
    "quote" := "Quote",
    "confirmed" := "Confirmed",
    "production" := "In Production",
    "delivered_eonite" := "On Delivery",
    "available" := "Delivered",
    "cancelled" := "Cancelled"
  ]

  /** Looking a key up in a record: `undefined` when it is absent. */
  function Lookup(table: map<string, string>, key: string): (v: Option<string>)
    ensures v.Some? <==> key in table
    ensures v.Some? ==> v.value == table[key]
  {
    if key in table then Some(table[key]) else None
  }

  /** `getOrderStatusColor`: the table's colour, grey for any other status. */
  function GetOrderStatusColor(status: string): (color: string)
    ensures status in OrderStatusColors ==> color == OrderStatusColors[status]
    ensures status !in OrderStatusColors ==> color == DefaultStatusColor
  {
    OrElse(Lookup(OrderStatusColors, status), DefaultStatusColor)
  }

  /** An unknown status is coloured like a quote. */
  lemma UnknownStatusColoredAsQuote(status: string)
    requires status !in OrderStatusColors
    ensures GetOrderStatusColor(status) == GetOrderStatusColor("quote")
  {
  }

  /** `getOrderStatusLabel`: the table's label, or the status itself when unknown. */
  function GetOrderStatusLabel(status: string): (text: string)
    ensures status in OrderStatusLabels ==> text == OrderStatusLabels[status]
    ensures status !in OrderStatusLabels ==> text == status
  {
    OrElse(Lookup(OrderStatusLabels, status), status)
  }

  /** The six known statuses have a label of their own, which differs from the status. */
  lemma KnownStatusLabels()
    ensures GetOrderStatusLabel("quote") == "Quote"
    ensures GetOrderStatusLabel("confirmed") == "Confirmed"
    ensures GetOrderStatusLabel("production") == "In Production"
    ensures GetOrderStatusLabel("delivered_eonite") == "On Delivery"
    ensures GetOrderStatusLabel("available") == "Delivered"
    ensures GetOrderStatusLabel("cancelled") == "Cancelled"
    ensures forall s :: s in OrderStatusLabels ==> GetOrderStatusLabel(s) != s
  {
  }

  // ---------------------------------------------------------------------------
  // Initials

  /**
   * `words.map(w => w[0]).join('')`: the first character of every word;
   * an empty word yields `undefined`, which `join` writes as nothing.
   */
  function WordHeads(words: seq<string>): (heads: string)
    ensures |heads| <= |words|
    ensures (forall i :: 0 <= i < |words| ==> words[i] != "") ==> |heads| == |words|
    ensures (forall i :: 0 <= i < |words| ==> words[i] == "") ==> heads == ""
    decreases |words|
  {
    if words == [] then ""
    else FirstChar(words[0]) + WordHeads(words[1..])
  }

  /** `w[0]` as written by `join`: the first character, or nothing for an empty word. */
  function FirstChar(w: string): (c: string)
    ensures |c| <= 1 && (w != "" ==> c == [w[0]])
    ensures w == "" ==> c == ""
  {
    if w == "" then "" else [w[0]]
  }

  /** The heads of two word lists are the heads of each, in order. */
  lemma {:induction false} WordHeadsConcat(a: seq<string>, b: seq<string>)
    ensures WordHeads(a + b) == WordHeads(a) + WordHeads(b)
    decreases |a|
  {
    if a == [] {
      assert a + b == b;
    } else {
      assert (a + b)[0] == a[0];
      assert (a + b)[1..] == a[1..] + b;
      WordHeadsConcat(a[1..], b);
    }
  }

  /** `getInitials`: split on spaces, take each word's first letter, upper-case, keep two. */
  function GetInitials(name: string): (initials: string)
    ensures |initials| <= 2
    ensures initials <= Upper(WordHeads(Split(name, ' ')))
    ensures |initials| == if |Upper(WordHeads(Split(name, ' ')))| < 2 then |Upper(WordHeads(Split(name, ' ')))| else 2
  {
    var heads := Upper(WordHeads(Split(name, ' ')));
    if |heads| <= 2 then heads else heads[..2]
  }

  /** The empty name has no initials. */
  lemma InitialsOfEmpty()
    ensures GetInitials("") == ""
  {
    assert Split("", ' ') == [""];
  }

  /** Two words give the upper-cased first letters of both. */
  lemma InitialsOfTwoWords(first: string, rest: string)
    requires first != "" && ' ' !in first
    requires rest != "" && rest[0] != ' '
    ensures GetInitials(first + " " + rest) == [UpperChar(first[0]), UpperChar(rest[0])]
  {
    SplitConcat(first, rest, ' ');
    SplitPiece(first, ' ');
    var tail := Split(rest, ' ');
    assert tail[0][0] == rest[0];
    WordHeadsConcat([first], tail);
    assert WordHeads([first]) == [first[0]];
    assert WordHeads(tail) == [rest[0]] + WordHeads(tail[1..]);
  }

  /** Repeated spaces only produce empty words, which contribute no heads. */
  lemma HeadsIgnoreRepeatedSpaces(before: string, after: string)
    ensures WordHeads(Split(before + "  " + after, ' ')) == WordHeads(Split(before + " " + after, ' '))
  {
    var b, a := Split(before, ' '), Split(after, ' ');
    assert before + "  " + after == before + [' '] + (" " + after);
    assert before + " " + after == before + [' '] + after;
    SplitConcat(before, " " + after, ' ');
    assert " " + after == [] + [' '] + after;
    SplitConcat([], after, ' ');
    SplitConcat(before, after, ' ');
    assert Split(" " + after, ' ') == [""] + a;
    WordHeadsConcat(b, [""] + a);
    WordHeadsConcat([""], a);
    WordHeadsConcat(b, a);
  }

  /** Hence repeated spaces do not change the initials. */
  lemma InitialsIgnoreRepeatedSpaces(before: string, after: string)
    ensures GetInitials(before + "  " + after) == GetInitials(before + " " + after)
  {
    HeadsIgnoreRepeatedSpaces(before, after);
  }

  // ---------------------------------------------------------------------------
  // Site URL

  const LocalhostUrl := "http://localhost:3000/"

  /**
   * The raw site URL: the site variable, else the deployment variable, else
   * localhost. `??` only skips missing values, so an empty string is kept.
   */
  function SiteUrlCandidate(siteUrl: Option<string>, deploymentUrl: Option<string>): (url: string)
    ensures siteUrl.Some? ==> url == siteUrl.value
    ensures siteUrl.None? && deploymentUrl.Some? ==> url == deploymentUrl.value
    ensures siteUrl.None? && deploymentUrl.None? ==> url == LocalhostUrl
  {
    siteUrl.GetOr(deploymentUrl.GetOr(LocalhostUrl))
  }

  predicate EndsWithSlash(url: string) {
    |url| > 0 && url[|url| - 1] == '/'
  }

  /**
   * The normalisation of `getURL`: prefix `https://` unless "http" occurs
   * somewhere in the string, then make sure of a trailing slash.
   */
  function NormalizeUrl(url: string): (r: string)
    ensures Contains(r, "http") && EndsWithSlash(r)
    ensures Contains(url, "http") ==> url <= r && |r| <= |url| + 1
    ensures !Contains(url, "http") ==> "https://" + url <= r && |r| <= |url| + 9
    ensures Contains(url, "http") && EndsWithSlash(url) ==> r == url
    ensures !Contains(url, "http") && EndsWithSlash("https://" + url) ==> r == "https://" + url
  {
    var withScheme := if Contains(url, "http") then url else "https://" + url;
    assert Contains(withScheme, "http") by {
      if !Contains(url, "http") {
        assert "http" <= "https://" + url;
      }
    }
    if EndsWithSlash(withScheme) then withScheme
    else
      ContainsAppend(withScheme, "http", "/");
      withScheme + "/"
  }

  /** Normalising a normalised URL changes nothing. */
  lemma NormalizeIdempotent(url: string)
    ensures NormalizeUrl(NormalizeUrl(url)) == NormalizeUrl(url)
  {
  }

  /** The scheme test is a substring test: "http" in the middle is enough. */
  lemma HttpTestIsNotPrefixTest()
    ensures NormalizeUrl("myhttp.example.com") == "myhttp.example.com/"
  {
    assert "http" <= "http.example.com";
    assert "myhttp.example.com"[1..] == "yhttp.example.com";
    assert "yhttp.example.com"[1..] == "http.example.com";
    assert Contains("myhttp.example.com", "http");
  }

  /** `getURL` from the two environment variables. */
  function GetUrl(siteUrl: Option<string>, deploymentUrl: Option<string>): (url: string)
    ensures Contains(url, "http") && EndsWithSlash(url)
    ensures NormalizeUrl(url) == url
    ensures siteUrl.Some? ==> siteUrl.value <= url || "https://" + siteUrl.value <= url
  {
    NormalizeUrl(SiteUrlCandidate(siteUrl, deploymentUrl))
  }

  /** Unset variables give localhost; an empty site variable is kept and gives a bare scheme. */
  lemma GetUrlFallbacks(deploymentUrl: Option<string>)
    ensures GetUrl(None, None) == LocalhostUrl
    ensures GetUrl(Some(""), deploymentUrl) == "https://"
  {
    assert "http" <= LocalhostUrl;
    assert !Contains("", "http");
  }
}
