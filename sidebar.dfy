/**
 * The role-based side menu (src/components/UI/SideBar.jsx): a constant table
 * of entries, each naming the roles that may see it; the visible menu is the
 * table filtered by the stored role, in table order, and an entry is drawn as
 * active when its path is the current pathname. The role (read from local
 * storage, possibly null) and the pathname (from the router) are parameters.
 */
module SideBar {
  import opened Options

  /** One row of `sideBarItems` (the icon is presentation and is left out). */
  datatype MenuItem = MenuItem(title: string, path: string, roles: seq<string>)

  const Dashboard := MenuItem("Dashboard", "/dashboard", ["ADMIN"])
  const InmateManagement := MenuItem("Inmate Management", "/inmate-management", ["ADMIN"])
  const FinancialManagement := MenuItem("Financial Management", "/financial-management", ["ADMIN"])
  const TransactionHistory := MenuItem("Transaction History", "/transaction-history", ["ADMIN"])
  const TuckShopPos := MenuItem("Tuck Shop POS", "/tuck-shop-pos", ["ADMIN", "POS"])
  const Reports := MenuItem("Reports", "/reports", ["ADMIN"])
  const BulkOperations := MenuItem("Bulk Operations", "/bulk-operations", ["ADMIN"])
  const Department := MenuItem("Department", "/department", ["ADMIN"])
  const UserManagement := MenuItem("User Management", "/user-management", ["ADMIN"])
  const AuditTrails := MenuItem("Audit Trails", "/audit-trails", ["ADMIN"])
  const InmateProfile := MenuItem("Inmate Profile", "/inmate-profile", ["INMATE"])
  const InmateTransaction := MenuItem("Inmate Transaction", "/inmate-transaction", ["INMATE"])

  /** `sideBarItems`, in display order. */
  const SideBarItems: seq<MenuItem> := [
    Dashboard, InmateManagement, FinancialManagement, TransactionHistory, TuckShopPos, Reports,
    BulkOperations, Department, UserManagement, AuditTrails, InmateProfile, InmateTransaction
  ]

  /** `val.roles.includes(userRole)`: a null role is in no list. */
  predicate Lists(item: MenuItem, role: Option<string>)
  {
    role.Some? && role.value in item.roles
  }

  /** `items.filter(val => val.roles.includes(userRole))`. */
  function Visible(items: seq<MenuItem>, role: Option<string>): seq<MenuItem>
  {
    if items == [] then []
    else (if Lists(items[0], role) then [items[0]] else []) + Visible(items[1..], role)
  }

  /** `menuItems`: the entries the side bar renders for `role`. */
  function MenuItems(role: Option<string>): seq<MenuItem>
  {
    Visible(SideBarItems, role)
  }

  /** The positions from `from` on whose entries list `role`, in increasing order. */
  function PositionsFrom(items: seq<MenuItem>, role: Option<string>, from: nat): (idx: seq<nat>)
    requires from <= |items|
    ensures forall k :: 0 <= k < |idx| ==> from <= idx[k] < |items| && Lists(items[idx[k]], role)
    ensures forall k, l :: 0 <= k < l < |idx| ==> idx[k] < idx[l]
    ensures forall i :: from <= i < |items| && Lists(items[i], role) ==> i in idx
    decreases |items| - from
  {
    if from == |items| then []
    else (if Lists(items[from], role) then [from] else []) + PositionsFrom(items, role, from + 1)
  }

  /** The table positions of the entries that list `role`, in increasing order. */
  function Positions(items: seq<MenuItem>, role: Option<string>): seq<nat>
  {
    PositionsFrom(items, role, 0)
  }

  /**
   * The filter keeps the table order: the k-th visible entry of `items[from..]`
   * is the entry at the k-th position from `from` on that lists the role.
   */
  lemma {:induction false} VisibleFromIsOrderedSelection(items: seq<MenuItem>, role: Option<string>, from: nat)
    requires from <= |items|
    ensures |Visible(items[from..], role)| == |PositionsFrom(items, role, from)|
    ensures forall k :: 0 <= k < |PositionsFrom(items, role, from)| ==>
      Visible(items[from..], role)[k] == items[PositionsFrom(items, role, from)[k]]
    decreases |items| - from
  {
    if from < |items| {
      VisibleFromIsOrderedSelection(items, role, from + 1);
      var suffix := items[from..];
      assert suffix[0] == items[from] && suffix[1..] == items[from + 1..];
      var rest := Visible(items[from + 1..], role);
      var later := PositionsFrom(items, role, from + 1);
      var menu := Visible(suffix, role);
      var idx := PositionsFrom(items, role, from);
      if Lists(items[from], role) {
        assert menu == [items[from]] + rest;
        assert idx == [from] + later;
        forall k | 0 < k < |idx| ensures menu[k] == items[idx[k]] {
          assert menu[k] == rest[k - 1] && idx[k] == later[k - 1];
        }
      } else {
        assert menu == rest;
        assert idx == later;
      }
    }
  }

  /**
   * The whole menu keeps the table order: the k-th visible entry is the table
   * entry at the k-th position that lists the role. So the menu is a
   * subsequence of the table holding exactly the entries that list the role.
   */
  lemma VisibleIsOrderedSelection(items: seq<MenuItem>, role: Option<string>)
    ensures |Visible(items, role)| == |Positions(items, role)|
    ensures forall k :: 0 <= k < |Positions(items, role)| ==>
      Visible(items, role)[k] == items[Positions(items, role)[k]]
  {
    VisibleFromIsOrderedSelection(items, role, 0);
    assert items[0..] == items;
  }

  /** Every visible entry comes from the table and lists the role. */
  lemma VisibleListsRole(items: seq<MenuItem>, role: Option<string>)
    ensures forall x :: x in Visible(items, role) ==> x in items && Lists(x, role)
  {
    VisibleIsOrderedSelection(items, role);
    var menu, idx := Visible(items, role), Positions(items, role);
    forall x | x in menu ensures x in items && Lists(x, role) {
      var k :| 0 <= k < |menu| && menu[k] == x;
      assert x == items[idx[k]];
    }
  }

  /** Every table entry that lists the role is visible. */
  lemma VisibleComplete(items: seq<MenuItem>, role: Option<string>)
    ensures forall i :: 0 <= i < |items| && Lists(items[i], role) ==> items[i] in Visible(items, role)
  {
    VisibleIsOrderedSelection(items, role);
    var menu, idx := Visible(items, role), Positions(items, role);
    forall i | 0 <= i < |items| && Lists(items[i], role) ensures items[i] in menu {
      var k :| 0 <= k < |idx| && idx[k] == i;
      assert menu[k] == items[i];
    }
  }

  /** The role "INMATE" sees exactly its two pages. */
  lemma InmateMenu()
    ensures MenuItems(Some("INMATE")) == [InmateProfile, InmateTransaction]
  {
    var role := Some("INMATE");
    assert SideBarItems == SideBarItems[..10] + ([InmateProfile] + [InmateTransaction]);
    VisibleSplit(SideBarItems[..10], [InmateProfile] + [InmateTransaction], role);
    VisibleSplit([InmateProfile], [InmateTransaction], role);
    NoneListed(SideBarItems[..10], role);
  }

  /** The role "POS" sees only the tuck-shop point of sale. */
  lemma PosMenu()
    ensures MenuItems(Some("POS")) == [TuckShopPos]
  {
    var role := Some("POS");
    assert SideBarItems == SideBarItems[..4] + ([TuckShopPos] + SideBarItems[5..]);
    VisibleSplit(SideBarItems[..4], [TuckShopPos] + SideBarItems[5..], role);
    VisibleSplit([TuckShopPos], SideBarItems[5..], role);
    NoneListed(SideBarItems[..4], role);
    NoneListed(SideBarItems[5..], role);
  }

  /** A role no entry lists, and a missing (null) role, see an empty menu. */
  lemma UnknownRoleMenu(role: Option<string>)
    requires role.Some? ==> role.value !in {"ADMIN", "POS", "INMATE"}
    ensures MenuItems(role) == []
  {
    NoneListed(SideBarItems, role);
  }

  /** Filtering a concatenation filters each part. */
  lemma {:induction false} VisibleSplit(a: seq<MenuItem>, b: seq<MenuItem>, role: Option<string>)
    ensures Visible(a + b, role) == Visible(a, role) + Visible(b, role)
  {
    if a != [] {
      var head := if Lists(a[0], role) then [a[0]] else [];
      assert (a + b)[0] == a[0] && (a + b)[1..] == a[1..] + b;
      VisibleSplit(a[1..], b, role);
      calc {
        Visible(a + b, role);
        head + Visible(a[1..] + b, role);
        head + (Visible(a[1..], role) + Visible(b, role));
        (head + Visible(a[1..], role)) + Visible(b, role);
      }
    } else {
      assert a + b == b;
    }
  }

  /** Entries none of which lists the role are filtered away entirely. */
  lemma {:induction false} NoneListed(items: seq<MenuItem>, role: Option<string>)
    requires forall i :: 0 <= i < |items| ==> !Lists(items[i], role)
    ensures Visible(items, role) == []
  {
    if items != [] {
      NoneListed(items[1..], role);
    }
  }

  /** `pathName.pathname === item.path`: the entry is drawn as the active one. */
  predicate IsActive(pathname: string, item: MenuItem)
  {
    pathname == item.path
  }

  /** No two table entries share a path. */
  lemma PathsDistinct()
    ensures forall i, j :: 0 <= i < j < |SideBarItems| ==> SideBarItems[i].path != SideBarItems[j].path
  {
  }

  /** Whatever the role and the pathname, at most one visible entry is active. */
  lemma AtMostOneActive(role: Option<string>, pathname: string)
    ensures forall k, l :: 0 <= k < l < |MenuItems(role)| ==>
      !(IsActive(pathname, MenuItems(role)[k]) && IsActive(pathname, MenuItems(role)[l]))
  {
    VisibleIsOrderedSelection(SideBarItems, role);
    PathsDistinct();
    var idx := Positions(SideBarItems, role);
    forall k, l | 0 <= k < l < |MenuItems(role)|
      ensures MenuItems(role)[k].path != MenuItems(role)[l].path
    {
      assert idx[k] < idx[l];
    }
  }
}
