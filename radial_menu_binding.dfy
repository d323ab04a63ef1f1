/** Radial menu configurations keyed by menu id, and for each input id the
    ordered list of menus bound to it. Menus and items are reference
    objects in the source; here they are values, so a caller keeping a
    reference to a stored menu and mutating it later is not modelled. */
module RadialMenus {
  import opened Common
  import Bindings
  import BindingRegistry

  datatype RadialMenuActivation = Click | Hold

  /** A menu entry; `labelText` is the item's `Label`. */
  datatype RadialMenuItem = RadialMenuItem(
    id: Guid, labelText: string, icon: string, action: string, parameters: map<string, string>,
    anglePosition: real, backgroundColor: string, foregroundColor: string,
    subMenuId: Option<string>, isEnabled: bool)

  datatype RadialMenuConfig = RadialMenuConfig(
    menuId: string, name: string, items: seq<RadialMenuItem>, radius: real, innerRadius: real,
    activationMode: RadialMenuActivation, constrainCursor: bool)

  /** `new RadialMenuItem()`: `id` is the fresh Guid. */
  function NewItem(id: Guid): (item: RadialMenuItem)
    ensures item.id == id && item.isEnabled && item.subMenuId.None?
    ensures item.action == "" && item.parameters == map[] && item.labelText == "" && item.icon == ""
    ensures item.anglePosition == 0.0 && item.backgroundColor == "#3C3C3C" && item.foregroundColor == "#FFFFFF"
  {
    RadialMenuItem(id, "", "", "", map[], 0.0, "#3C3C3C", "#FFFFFF", None, true)
  }

  /** `new RadialMenuConfig()`: `menuId` is the fresh Guid's text. */
  function NewMenu(menuId: string): (m: RadialMenuConfig)
    ensures m.menuId == menuId && m.name == "New Menu" && m.items == []
    ensures m.radius == 120.0 && m.innerRadius == 40.0 && m.activationMode == Click && m.constrainCursor
  {
    RadialMenuConfig(menuId, "New Menu", [], 120.0, 40.0, Click, true)
  }

  function Item(id: Guid, labelText: string, action: string, angle: real): RadialMenuItem
  {
    NewItem(id).(labelText := labelText, action := action, anglePosition := angle)
  }

  /** The three stock menus; `ids` are the twelve fresh item Guids. (Each
      menu's constructor also draws a Guid for its id, which the
      initializer overwrites at once.) */
  function DefaultMenus(ids: seq<Guid>): (r: map<string, RadialMenuConfig>)
    requires |ids| == 12
    ensures r.Keys == {"main_mode", "pen_tools", "shapes"}
    ensures forall k :: k in r ==> r[k].menuId == k
    ensures |r["main_mode"].items| == 2 && |r["pen_tools"].items| == 4 && |r["shapes"].items| == 6
  {
    var main := NewMenu("main_mode").(name := "Mode Selection", items := [
      Item(ids[0], "Keyboard", Bindings.SetInputMode, 0.0),
      Item(ids[1], "Tablet", Bindings.SetInputMode, 180.0)]);
    var pen := NewMenu("pen_tools").(name := "Pen Tools", items := [
      Item(ids[2], "Pen", Bindings.SetToolMode, 0.0),
      Item(ids[3], "Highlighter", Bindings.SetToolMode, 90.0),
      Item(ids[4], "Eraser", Bindings.SetToolMode, 180.0),
      Item(ids[5], "Selection", Bindings.SetToolMode, 270.0)]);
    var shapes := NewMenu("shapes").(name := "Shapes", items := [
      Item(ids[6], "Line", Bindings.SetToolMode, 0.0),
      Item(ids[7], "Arrow", Bindings.SetToolMode, 60.0),
      Item(ids[8], "Rectangle", Bindings.SetToolMode, 120.0),
      Item(ids[9], "Circle", Bindings.SetToolMode, 180.0),
      Item(ids[10], "Triangle", Bindings.SetToolMode, 240.0),
      Item(ids[11], "Ruler", Bindings.SetToolMode, 300.0)]);
    map["main_mode" := main, "pen_tools" := pen, "shapes" := shapes]
  }

  /** `TryGetValue`: the menu, or `None`. */
  function MenuById(menus: map<string, RadialMenuConfig>, menuId: string): (r: Option<RadialMenuConfig>)
    ensures r.Some? <==> menuId in menus
    ensures r.Some? ==> r.value == menus[menuId]
  {
    if menuId in menus then Some(menus[menuId]) else None
  }

  /** The stock tablet binding for Button4 opens menu "colors", which no
      stock menu provides, so that lookup finds nothing. */
  lemma ColorsMenuMissing(menuItemIds: seq<Guid>, bindingIds: seq<Guid>)
    requires |menuItemIds| == 12 && |bindingIds| == 9
    ensures BindingRegistry.DefaultBindings(bindingIds)[3].inputId == "Tablet_Button4"
    ensures BindingRegistry.DefaultBindings(bindingIds)[3].parameters["menuId"] == "colors"
    ensures MenuById(DefaultMenus(menuItemIds), "colors").None?
  {
  }

  predicate NoDuplicates(xs: seq<string>)
  {
    forall i, j :: 0 <= i < j < |xs| ==> xs[i] != xs[j]
  }

  /** `if (!list.Contains(x)) list.Add(x)`: the list gains `x` at its end
      unless it already holds it, and never holds a duplicate. */
  function AddUnique(xs: seq<string>, x: string): (r: seq<string>)
    ensures forall y :: y in r <==> y in xs || y == x
    ensures |r| >= |xs| && r[..|xs|] == xs
    ensures x in xs ==> r == xs
    ensures NoDuplicates(xs) ==> NoDuplicates(r)
  {
    if x in xs then xs else xs + [x]
  }

  /** Binding the same menu twice is the same as binding it once. */
  lemma AddUniqueIdempotent(xs: seq<string>, x: string)
    ensures AddUnique(AddUnique(xs, x), x) == AddUnique(xs, x)
  {
  }

  /** `GetMenusForInput`: the bound list, or empty for an unbound input. */
  function MenusFor(bindings: map<string, seq<string>>, inputId: string): (r: seq<string>)
    ensures inputId !in bindings ==> r == []
    ensures inputId in bindings ==> r == bindings[inputId]
  {
    if inputId in bindings then bindings[inputId] else []
  }

  class RadialMenuBinding {
    /** `_menus`. */
    var menus: map<string, RadialMenuConfig>
    /** `_inputBindings`: input id to the menu ids bound to it, in bind order. */
    var inputBindings: map<string, seq<string>>

    /** No input lists a menu twice. */
    ghost predicate Valid()
      reads this
    {
      forall i :: i in inputBindings ==> NoDuplicates(inputBindings[i])
    }

    constructor (itemIds: seq<Guid>)
      requires |itemIds| == 12
      ensures Valid()
      ensures menus == DefaultMenus(itemIds) && inputBindings == map[]
    {
      menus := DefaultMenus(itemIds);
      inputBindings := map[];
    }

    method GetMenu(menuId: string) returns (r: Option<RadialMenuConfig>)
      ensures r == MenuById(menus, menuId)
    {
      if menuId in menus {
        return Some(menus[menuId]);
      }
      return None;
    }

    /** Every stored menu (the dictionary's enumeration order is not modelled). */
    method GetAllMenus() returns (r: set<RadialMenuConfig>)
      ensures r == menus.Values
    {
      r := menus.Values;
    }

    /** Inserts or replaces the entry keyed by the menu's own id. */
    method SetMenu(menu: RadialMenuConfig)
      modifies this
      ensures menus == old(menus)[menu.menuId := menu]
      ensures inputBindings == old(inputBindings)
    {
      menus := menus[menu.menuId := menu];
    }

    /** Deletes that menu only; bindings naming it stay. */
    method RemoveMenu(menuId: string)
      modifies this
      ensures menus == old(menus) - {menuId}
      ensures inputBindings == old(inputBindings)
    {
      menus := menus - {menuId};
    }

    method BindInputToMenu(inputId: string, menuId: string)
      requires Valid()
      modifies this
      ensures Valid()
      ensures inputBindings == old(inputBindings)[inputId := AddUnique(MenusFor(old(inputBindings), inputId), menuId)]
      ensures menus == old(menus)
    {
      // The input's list, created empty when the input has none yet.
      var list := if inputId in inputBindings then inputBindings[inputId] else [];
      if menuId !in list {
        list := list + [menuId];
      }
      assert list == AddUnique(MenusFor(inputBindings, inputId), menuId);
      inputBindings := inputBindings[inputId := list];
    }

    method GetMenusForInput(inputId: string) returns (r: seq<string>)
      ensures r == MenusFor(inputBindings, inputId)
    {
      if inputId in inputBindings {
        return inputBindings[inputId];
      }
      return [];
    }
  }
}
