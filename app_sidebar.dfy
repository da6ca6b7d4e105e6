/** The dashboard sidebar: which navigation items are highlighted for the
    current pathname, and where the separators go between sections. */
module AppSidebar {
  import opened Optional
  import opened JsPrims

  datatype NavItem = NavItem(title: string, url: string, badge: Option<string>)
  datatype NavSection = NavSection(text: string, items: seq<NavItem>)

  const NavigationSections: seq<NavSection> := [
    NavSection("Main", [
      NavItem("Dashboard", "/dashboard", None),
      NavItem("Team", "/team", None),
      NavItem("Projects", "/projects", None),
      NavItem("Documents", "/documents", None),
      NavItem("Notifications", "/notifications", None)]),
    NavSection("Other", [
      NavItem("Settings", "/dashboard/settings", None)])]

  const AiFeatureItem := NavItem("AI Assistant", "/ai", Some("Beta"))
  const HelpItem := NavItem("Help & Support", "/help", None)

  /** `NavItem`: the item's own page or any page below it. */
  predicate IsActive(pathname: string, url: string) {
    pathname == url || StartsWith(pathname, url + "/")
  }

  /** A pathname activates an item exactly when it is the item's url, or the
      url followed by a path separator and anything. */
  lemma IsActiveShape(pathname: string, url: string)
    ensures IsActive(pathname, url) <==>
              pathname == url || (|pathname| > |url| && pathname[..|url|] == url && pathname[|url|] == '/')
  {
    if |pathname| > |url| && pathname[..|url|] == url && pathname[|url|] == '/' {
      assert pathname[..|url| + 1] == url + "/";
    }
    if StartsWith(pathname, url + "/") {
      assert pathname[..|url|] == (url + "/")[..|url|];
      assert pathname[|url|] == (url + "/")[|url|];
    }
  }

  /** A sibling path that only extends the url's last segment does not
      activate it: "/teams" leaves "/team" inactive. */
  lemma SiblingNotActive(url: string, rest: string)
    requires rest != [] && rest[0] != '/'
    ensures !IsActive(url + rest, url)
  {
    IsActiveShape(url + rest, url);
    assert (url + rest)[|url|] == rest[0];
  }

  lemma TeamsDoesNotActivateTeam(pathname: string)
    requires pathname == "/teams"
    ensures !IsActive(pathname, "/team")
  {
    assert pathname == "/team" + "s";
    SiblingNotActive("/team", "s");
  }

  /** `AIFeatureButton`: its own page only. */
  predicate AiActive(pathname: string) {
    pathname == AiFeatureItem.url
  }

  /** A page below the assistant highlights the button only if it were a
      plain nav item. */
  lemma AiExactOnly(pathname: string)
    requires pathname == "/ai/chat"
    ensures !AiActive(pathname) && IsActive(pathname, AiFeatureItem.url)
  {
    assert pathname[..4] == "/ai/";
  }

  /** One pathname can highlight several items: a settings page highlights
      both Dashboard and Settings. */
  lemma SettingsActivatesTwo(pathname: string)
    requires pathname == "/dashboard/settings"
    ensures IsActive(pathname, NavigationSections[0].items[0].url)
    ensures IsActive(pathname, NavigationSections[1].items[0].url)
  {
    assert pathname[..11] == "/dashboard/";
  }

  // ---------------------------------------------------------------------------
  // Layout
  // ---------------------------------------------------------------------------

  datatype Block = Group(text: string) | Separator | AiGroup | HelpGroup

  /** The section groups from `index` on, each followed by a separator
      unless it is the last section: groups and separators alternate, and
      the last block is a group. */
  function SectionBlocks(sections: seq<NavSection>, index: nat): (r: seq<Block>)
    requires index < |sections|
    ensures |r| == 2 * (|sections| - index) - 1
    ensures forall k :: 0 <= k < |r| ==>
              r[k] == (if k % 2 == 0 then Group(sections[index + k / 2].text) else Separator)
    decreases |sections| - index
  {
    var group := [Group(sections[index].text)];
    if index < |sections| - 1 then
      var rest := SectionBlocks(sections, index + 1);
      var r := group + [Separator] + rest;
      assert forall k :: 2 <= k < |r| ==> r[k] == rest[k - 2];
      r
    else group
  }

  /** The sidebar content: the sections, the AI group, a separator, and help.
      No separator follows the last section, so the AI group sits directly
      under "Other". */
  function Layout(): (r: seq<Block>)
    ensures |r| == 2 * |NavigationSections| - 1 + 3
    ensures r[|r| - 4] == Group("Other") && r[|r| - 3] == AiGroup
    ensures r == [Group("Main"), Separator, Group("Other"), AiGroup, Separator, HelpGroup]
  {
    var blocks := SectionBlocks(NavigationSections, 0);
    assert blocks == [Group("Main"), Separator, Group("Other")];
    blocks + [AiGroup, Separator, HelpGroup]
  }

  /** For any non-empty list of sections, the content neither starts nor
      ends with a separator, and every separator sits between two blocks
      that are not separators. */
  lemma SeparatorsBetweenGroups(sections: seq<NavSection>)
    requires |sections| >= 1
    ensures var r := SectionBlocks(sections, 0) + [AiGroup, Separator, HelpGroup];
            r[0] != Separator && r[|r| - 1] != Separator &&
            forall k :: 0 < k < |r| - 1 && r[k] == Separator ==> r[k - 1] != Separator && r[k + 1] != Separator
  {
    var blocks := SectionBlocks(sections, 0);
    var r := blocks + [AiGroup, Separator, HelpGroup];
    forall k | 0 < k < |r| - 1 && r[k] == Separator
      ensures r[k - 1] != Separator && r[k + 1] != Separator
    {
      if k < |blocks| {
        assert k % 2 == 1;
        assert r[k - 1] == blocks[k - 1];
        if k + 1 < |blocks| {
          assert r[k + 1] == blocks[k + 1];
        }
      }
    }
  }
}
