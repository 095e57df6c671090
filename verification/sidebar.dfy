/** The navigation sidebar of `src/sidebar.rs`: a list of tabs and the index
    of the selected one. Selecting a tab stores its index without any bounds
    check; when the sidebar is drawn, the tabs are numbered from 0 in order
    and exactly the tab whose number equals the selection is highlighted. */
module Sidebar {
  import opened Wrappers

  /** Rust's `usize` on a 64-bit target. */
  type Usize = x: int | 0 <= x < 0x1_0000_0000_0000_0000

  /** One tab: an optional icon glyph and an optional label. */
  datatype Tab = Tab(icon: Option<char>, text: Option<string>)

  datatype Sidebar = Sidebar(tabs: seq<Tab>, selected: Usize)

  datatype Message = TabSelected(id: Usize)

  /** `Tab::new`: keeps both parts as given. */
  function NewTab(icon: Option<char>, text: Option<string>): (t: Tab)
    ensures t.icon == icon && t.text == text
  {
    Tab(icon, text)
  }

  /** `Tab::icon`: a tab with an icon and no label. */
  function IconTab(c: char): (t: Tab)
    ensures t.icon == Some(c) && t.text == None
  {
    NewTab(Some(c), None)
  }

  /** `Tab::text`: a tab with a label and no icon. */
  function TextTab(s: string): (t: Tab)
    ensures t.icon == None && t.text == Some(s)
  {
    NewTab(None, Some(s))
  }

  /** `Tab::icon_text`: a tab with both. */
  function IconTextTab(c: char, s: string): (t: Tab)
    ensures t.icon == Some(c) && t.text == Some(s)
  {
    NewTab(Some(c), Some(s))
  }

  /** `Sidebar::new`: stores exactly the given tabs and selection, which need
      not be a valid tab index. */
  function New(tabs: seq<Tab>, selected: Usize): (s: Sidebar)
    ensures s.tabs == tabs && s.selected == selected
  {
    Sidebar(tabs, selected)
  }

  /** `Sidebar::update`: the selection becomes the chosen id; the tabs are
      untouched and the id is not checked against their number. */
  function Update(s: Sidebar, m: Message): (r: Sidebar)
    ensures r.tabs == s.tabs
    ensures r.selected == m.id
  {
    match m
    case TabSelected(id) => s.(selected := id)
  }

  /** The test each tab's view makes to decide whether it is highlighted. */
  predicate IsSelected(id: nat, selected: Usize)
  {
    id == selected
  }

  /** The highlight of each tab as drawn, tab `i` being numbered `i`. */
  function Highlights(s: Sidebar): (h: seq<bool>)
    ensures |h| == |s.tabs|
    ensures forall i :: 0 <= i < |h| ==> (h[i] <==> i == s.selected)
  {
    seq(|s.tabs|, i requires 0 <= i < |s.tabs| => IsSelected(i, s.selected))
  }

  /** Exactly one tab is highlighted when the selection is a valid index, and
      none when it is not. */
  lemma {:induction false} OneHighlightIffInRange(s: Sidebar)
    ensures Count(Highlights(s), (b: bool) => b) == if s.selected < |s.tabs| then 1 else 0
  {
    var isOn := (b: bool) => b;
    var h := Highlights(s);
    if s.selected < |s.tabs| {
      var k := s.selected;
      assert h == h[..k] + [true] + h[k + 1..];
      CountAppend(h[..k] + [true], h[k + 1..], isOn);
      CountAppend(h[..k], [true], isOn);
      assert Count([true], isOn) == 1 by {
        assert [true][1..] == [];
      }
      assert Count(h[..k], isOn) == 0 by {
        assert forall i :: 0 <= i < k ==> !h[..k][i];
      }
      assert Count(h[k + 1..], isOn) == 0 by {
        var rest := h[k + 1..];
        assert forall i :: 0 <= i < |rest| ==> !rest[i];
      }
    } else {
      assert forall i :: 0 <= i < |h| ==> !h[i];
    }
  }

  /** Selection is not bounds-checked: a one-tab sidebar can be made to
      select tab 5, after which no tab is highlighted. */
  lemma UpdateMayLeaveRange()
    ensures var r := Update(New([IconTab('a')], 0), TabSelected(5));
            r.selected >= |r.tabs| && Highlights(r) == [false]
  {
  }
}
