/**
 * components/AdminLayout.tsx: the frame of the admin area. It admits only
 * staff, loads the figures shown as menu badges and keeps the unread-message
 * figure current.
 */
module AdminLayout {

  import opened Wrappers
  import opened Roles
  import opened Utils

  /** An inventory row as the layout selects it: `quantity, alert_threshold`. */
  datatype InventoryRow = InventoryRow(quantity: int, alertThreshold: int)

  /** The rows at or below their alert threshold: the bound is inclusive. */
  function LowStockCount(rows: seq<InventoryRow>): (count: nat)
    ensures count <= |rows|
    decreases |rows|
  {
    if rows == [] then 0
    else (if rows[0].quantity <= rows[0].alertThreshold then 1 else 0) + LowStockCount(rows[1..])
  }

  /** There is no low-stock alert exactly when every row is above its alert threshold. */
  lemma {:induction false} NoLowStockIff(rows: seq<InventoryRow>)
    ensures LowStockCount(rows) == 0 <==> forall i :: 0 <= i < |rows| ==> rows[i].quantity > rows[i].alertThreshold
    decreases |rows|
  {
    if rows != [] {
      NoLowStockIff(rows[1..]);
      assert forall i :: 1 <= i < |rows| ==> rows[i] == rows[1..][i - 1];
    }
  }

  /** The rows whose stock level, with the given critical thresholds, is not `High`. */
  function NotHighCount(rows: seq<InventoryRow>, critical: seq<int>): (n: nat)
    requires |critical| == |rows|
    decreases |rows|
  {
    if rows == [] then 0
    else
      var notHigh := GetStockLevel(rows[0].quantity, rows[0].alertThreshold, critical[0]) != High;
      (if notHigh then 1 else 0) + NotHighCount(rows[1..], critical[1..])
  }

  /**
   * When every critical threshold is at most its alert threshold, the alert
   * count is the number of rows the stock classifier calls critical or low.
   */
  lemma {:induction false} LowStockCountMatchesStockLevels(rows: seq<InventoryRow>, critical: seq<int>)
    requires |critical| == |rows|
    requires forall i :: 0 <= i < |rows| ==> critical[i] <= rows[i].alertThreshold
    ensures LowStockCount(rows) == NotHighCount(rows, critical)
    decreases |rows|
  {
    if rows != [] {
      NotHighIffAtMostAlert(rows[0].quantity, rows[0].alertThreshold, critical[0]);
      assert forall i :: 1 <= i < |rows| ==> rows[i] == rows[1..][i - 1] && critical[i] == critical[1..][i - 1];
      LowStockCountMatchesStockLevels(rows[1..], critical[1..]);
    }
  }

  /** The sum of `unread_count || 0` over conversations: a missing count adds nothing. */
  function UnreadSum(counts: seq<Option<int>>): (sum: int)
    ensures (forall i :: 0 <= i < |counts| ==> counts[i].GetOr(0) >= 0) ==>
      0 <= sum && forall i :: 0 <= i < |counts| ==> counts[i].GetOr(0) <= sum
    decreases |counts|
  {
    if counts == [] then 0
    else counts[0].GetOr(0) + UnreadSum(counts[1..])
  }

  /** The sum splits over consecutive groups of conversations. */
  lemma {:induction false} UnreadSumConcat(a: seq<Option<int>>, b: seq<Option<int>>)
    ensures UnreadSum(a + b) == UnreadSum(a) + UnreadSum(b)
    decreases |a|
  {
    if a == [] {
      assert a + b == b;
    } else {
      assert (a + b)[0] == a[0];
      assert (a + b)[1..] == a[1..] + b;
      UnreadSumConcat(a[1..], b);
    }
  }

  /** Conversations without a count contribute nothing: `c.unread_count || 0`. */
  lemma {:induction false} UnreadSumAllMissing(counts: seq<Option<int>>)
    ensures (forall i :: 0 <= i < |counts| ==> counts[i].None?) ==> UnreadSum(counts) == 0
    decreases |counts|
  {
    if counts != [] {
      assert forall i :: 1 <= i < |counts| ==> counts[i] == counts[1..][i - 1];
      UnreadSumAllMissing(counts[1..]);
    }
  }

  /** `data?.length || 0`: the number of rows, 0 for `null`. */
  function LengthOrZero<T>(data: Option<seq<T>>): (n: nat)
    ensures data.Some? ==> n == |data.value|
    ensures data.None? ==> n == 0
  {
    if data.Some? then |data.value| else 0
  }

  /** The figures of the admin menu. */
  datatype Stats = Stats(
    lowStockAlerts: nat,
    unreadMessages: int,
    totalClients: nat,
    totalOrders: nat,
    totalProducts: nat)

  const NoStats := Stats(0, 0, 0, 0, 0)

  /** The stats of `loadUserAndStats` from the five query results; `None` is `null` data. */
  function ComputeStats(
    inventory: Option<seq<InventoryRow>>,
    conversations: Option<seq<Option<int>>>,
    clients: Option<seq<string>>,
    orders: Option<seq<string>>,
    products: Option<seq<string>>): (s: Stats)
    ensures s.lowStockAlerts == LowStockCount(inventory.GetOr([]))
    ensures s.unreadMessages == UnreadSum(conversations.GetOr([]))
    ensures s.totalClients == LengthOrZero(clients)
    ensures s.totalOrders == LengthOrZero(orders)
    ensures s.totalProducts == LengthOrZero(products)
  {
    Stats(
      LowStockCount(inventory.GetOr([])),
      UnreadSum(conversations.GetOr([])),
      LengthOrZero(clients),
      LengthOrZero(orders),
      LengthOrZero(products))
  }

  /** Where the layout sends the visitor. */
  datatype Access = SendToLogin | SendToDashboard | Granted

  /** No user: the sign-in page; a user who is not staff, or has no profile: the client dashboard. */
  function AccessDecision(userPresent: bool, profileRole: Option<string>): (a: Access)
    ensures a == SendToLogin <==> !userPresent
    ensures a == SendToDashboard <==> userPresent && !IsStaff(profileRole)
    ensures a == Granted <==> userPresent && IsStaff(profileRole)
  {
    if !userPresent then SendToLogin
    else if !IsStaff(profileRole) then SendToDashboard
    else Granted
  }

  /** A red badge: hidden unless the figure is positive. */
  function Badge(count: int): (badge: Option<int>)
    ensures badge.None? <==> count <= 0
    ensures badge.Some? ==> badge.value == count
  {
    if count > 0 then Some(count) else None
  }

  /** What a menu entry shows for its `badge`: nothing, the bare text "0", or a pill. */
  datatype BadgeView = Hidden | BareZero | Pill(figure: int)

  /**
   * `{item.badge && (<span>{item.badge}</span>)}`: `null` or a missing badge
   * renders nothing; the number 0 is falsy, so `&&` yields 0, which React still
   * prints as the text "0"; any other number renders the pill with that figure.
   */
  function RenderBadge(badge: Option<int>): (view: BadgeView)
    ensures view == Hidden <==> badge.None?
    ensures view == BareZero <==> badge == Some(0)
    ensures view.Pill? ==> badge == Some(view.figure) && view.figure != 0
  {
    match badge
    case None => Hidden
    case Some(n) => if n == 0 then BareZero else Pill(n)
  }

  /** A red badge never shows a bare "0": it is a pill exactly when its figure is positive. */
  lemma RedBadgeView(count: int)
    ensures RenderBadge(Badge(count)) != BareZero
    ensures RenderBadge(Badge(count)).Pill? <==> count > 0
    ensures RenderBadge(Badge(count)).Pill? ==> RenderBadge(Badge(count)).figure == count
  {
  }

  /** A count badge (orders, clients, products) is never hidden: a zero total shows a bare "0". */
  lemma CountBadgeView(total: nat)
    ensures RenderBadge(Some(total)) != Hidden
    ensures RenderBadge(Some(total)) == BareZero <==> total == 0
    ensures RenderBadge(Some(total)).Pill? <==> total > 0
  {
  }

  /** `isActive`: a menu entry is highlighted only on its exact path. */
  function IsActive(pathname: string, href: string): (active: bool)
    ensures active <==> pathname == href
  {
    pathname == href
  }

  /** A page below a menu entry's path does not highlight the entry. */
  lemma SubpageIsNotActive(href: string, rest: string)
    requires rest != ""
    ensures !IsActive(href + rest, href)
  {
    assert |href + rest| != |href|;
  }

  class AdminLayoutState {
    var stats: Stats
    /** The last navigation requested with `router.push`. */
    var navigation: Option<string>
    /** Whether a staff user has been admitted and stored. */
    var admitted: bool

    constructor ()
      ensures stats == NoStats && navigation == None && !admitted
    {
      stats, navigation, admitted := NoStats, None, false;
    }

    /**
     * `loadUserAndStats` with the results of the session, profile and stats
     * queries: a visitor who is turned away gets no stats loaded.
     */
    method LoadUserAndStats(
      userPresent: bool,
      profileRole: Option<string>,
      inventory: Option<seq<InventoryRow>>,
      conversations: Option<seq<Option<int>>>,
      clients: Option<seq<string>>,
      orders: Option<seq<string>>,
      products: Option<seq<string>>)
      modifies this
      ensures var access := AccessDecision(userPresent, profileRole);
        && (access == SendToLogin ==> navigation == Some("/login"))
        && (access == SendToDashboard ==> navigation == Some("/dashboard"))
        && (access == Granted ==> navigation == old(navigation))
        && (access != Granted ==> stats == old(stats) && admitted == old(admitted))
        && (access == Granted ==> admitted)
        && (access == Granted ==> stats == ComputeStats(inventory, conversations, clients, orders, products))
    {
      match AccessDecision(userPresent, profileRole)
      case SendToLogin =>
        navigation := Some("/login");
      case SendToDashboard =>
        navigation := Some("/dashboard");
      case Granted =>
        admitted := true;
        stats := ComputeStats(inventory, conversations, clients, orders, products);
    }

    /** `loadUnreadCount`: refresh the unread figure and nothing else. */
    method LoadUnreadCount(conversations: Option<seq<Option<int>>>)
      modifies this
      ensures stats == old(stats).(unreadMessages := UnreadSum(conversations.GetOr([])))
      ensures navigation == old(navigation) && admitted == old(admitted)
    {
      stats := stats.(unreadMessages := UnreadSum(conversations.GetOr([])));
    }

    /** The inventory entry's badge. */
    function InventoryBadge(): (badge: Option<int>)
      reads this
      ensures badge.None? <==> stats.lowStockAlerts <= 0
      ensures badge.Some? ==> badge.value == stats.lowStockAlerts
    {
      Badge(stats.lowStockAlerts)
    }

    /** The messages entry's badge. */
    function MessagesBadge(): (badge: Option<int>)
      reads this
      ensures badge.None? <==> stats.unreadMessages <= 0
      ensures badge.Some? ==> badge.value == stats.unreadMessages
    {
      Badge(stats.unreadMessages)
    }

    /** The orders entry's badge, `badge: stats.totalOrders`, as the menu renders it. */
    function OrdersBadge(): (view: BadgeView)
      reads this
      ensures view != Hidden
      ensures view == BareZero <==> stats.totalOrders == 0
      ensures view.Pill? ==> view.figure == stats.totalOrders
    {
      RenderBadge(Some(stats.totalOrders))
    }

    /** The clients entry's badge, `badge: stats.totalClients`, as the menu renders it. */
    function ClientsBadge(): (view: BadgeView)
      reads this
      ensures view != Hidden
      ensures view == BareZero <==> stats.totalClients == 0
      ensures view.Pill? ==> view.figure == stats.totalClients
    {
      RenderBadge(Some(stats.totalClients))
    }

    /** The products entry's badge, `badge: stats.totalProducts`, as the menu renders it. */
    function ProductsBadge(): (view: BadgeView)
      reads this
      ensures view != Hidden
      ensures view == BareZero <==> stats.totalProducts == 0
      ensures view.Pill? ==> view.figure == stats.totalProducts
    {
      RenderBadge(Some(stats.totalProducts))
    }
  }
}
