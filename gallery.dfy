/** The project gallery: a category filter over a fixed project list, a
    "show more" cut-off at six cards, and a modal that pages through the
    filtered projects with wrap-around (buttons, swipes and keys). */
module Gallery {
  import opened Optional
  import opened Seqs
  import opened JsPrims

  datatype Project = Project(id: int, category: string)

  /** The fifteen projects, by id and category (titles, images and links are
      presentation only). */
  const Projects: seq<Project> := [
    Project(1, "Full Stack"), Project(2, "Full Stack"), Project(3, "Full Stack"),
    Project(4, "Full Stack"), Project(5, "Full Stack"), Project(6, "Full Stack"),
    Project(7, "Full Stack"), Project(8, "Frontend"), Project(9, "Full Stack"),
    Project(10, "Full Stack"), Project(11, "Backend"), Project(12, "DevOps"),
    Project(13, "Mobile"), Project(14, "Mobile"), Project(15, "Mobile")]

  const Categories: seq<string> := ["All", "Full Stack", "Frontend", "Backend", "Mobile", "DevOps"]

  /** Cards shown before "Show More" is pressed. */
  const PageSize: nat := 6

  /** The swipe distance the gallery asks for. */
  const SwipeThreshold: nat := 30

  function Ids(ps: seq<Project>): seq<int> {
    seq(|ps|, i requires 0 <= i < |ps| => ps[i].id)
  }

  /** Every project id occurs once. */
  lemma ProjectIdsDistinct()
    ensures Distinct(Ids(Projects))
  {
    forall i | 0 <= i < |Projects| ensures Projects[i].id == i + 1 {
    }
  }

  // ---------------------------------------------------------------------------
  // wrap
  // ---------------------------------------------------------------------------

  /** popmotion's `wrap(min, max, v)` with JavaScript's `%`; `None` stands for
      the `NaN` an empty range produces. */
  function Wrap(min: int, max: int, v: int): (r: Option<int>)
    ensures r.None? <==> min == max
  {
    if min == max then None
    else
      var rangeSize := max - min;
      Some(JsRem(JsRem(v - min, rangeSize) + rangeSize, rangeSize) + min)
  }

  /** On a non-empty range `wrap` is the mathematical modulus: its result lies
      in `[min, max)` and differs from `v` by a multiple of the range size. */
  lemma WrapIsModulus(min: int, max: int, v: int)
    requires min < max
    ensures Wrap(min, max, v) == Some((v - min) % (max - min) + min)
    ensures min <= Wrap(min, max, v).value < max
    ensures (Wrap(min, max, v).value - v) % (max - min) == 0
  {
    var n := max - min;
    var a := JsRem(v - min, n);
    JsRemShift(v - min, n);
    assert a + n >= 0;
    assert JsRem(a + n, n) == (a + n) % n;
    var q := (v - min) / n;
    assert v - min == q * n + (v - min) % n;
    ModUnique(-q * n, n, -q, 0);
    assert (v - min) % n + min - v == -q * n;
  }

  /** A value already in range is left alone. */
  lemma WrapInRange(min: int, max: int, v: int)
    requires min <= v < max
    ensures Wrap(min, max, v) == Some(v)
  {
    WrapIsModulus(min, max, v);
    ModUnique(v - min, max - min, 0, v - min);
  }

  // ---------------------------------------------------------------------------
  // Filtering and pagination
  // ---------------------------------------------------------------------------

  /** `projects.filter(p => p.category === category)`: exactly the projects
      of the category (their order is `ByCategoryInOrder`). */
  function ByCategory(projects: seq<Project>, category: string): (ps: seq<Project>)
    ensures forall i :: 0 <= i < |ps| ==> ps[i] in projects && ps[i].category == category
    ensures forall i :: 0 <= i < |projects| && projects[i].category == category ==> projects[i] in ps
  {
    Filter(projects, (p: Project) => p.category == category)
  }

  /** The k-th project of a category is the one at the k-th matching position
      of the list, so the cards keep list order and repeats. */
  lemma ByCategoryInOrder(projects: seq<Project>, category: string)
    ensures var inCategory := (p: Project) => p.category == category;
            var ps := ByCategory(projects, category);
            |ps| == |Positions(projects, inCategory, 0)| &&
            forall k :: 0 <= k < |ps| ==> ps[k] == projects[Positions(projects, inCategory, 0)[k]]
  {
    FilterAtPositions(projects, (p: Project) => p.category == category);
  }

  /** `filteredProjects`: every project under "All", else the category's
      projects in list order. */
  function FilteredProjects(category: string): (ps: seq<Project>)
    ensures category == "All" ==> ps == Projects
    ensures category != "All" ==> ps == ByCategory(Projects, category)
  {
    if category == "All" then Projects else ByCategory(Projects, category)
  }

  /** Every category button yields at least one project. */
  lemma CategoriesNonEmpty(category: string)
    requires category in Categories
    ensures |FilteredProjects(category)| >= 1
  {
    if category != "All" {
      var k := if category == "Full Stack" then 0
               else if category == "Frontend" then 7
               else if category == "Backend" then 10
               else if category == "DevOps" then 11
               else 12;
      assert Projects[k].category == category;
      HasProjectAt(category, k);
    }
  }

  lemma HasProjectAt(category: string, k: nat)
    requires category != "All" && k < |Projects| && Projects[k].category == category
    ensures |FilteredProjects(category)| >= 1
  {
    assert Projects[k] in FilteredProjects(category);
  }

  /** `displayProjects` */
  function DisplayProjects(filtered: seq<Project>, showAll: bool): (shown: seq<Project>)
    ensures showAll ==> shown == filtered
    ensures !showAll ==> shown == filtered[..Min(PageSize, |filtered|)]
  {
    if showAll then filtered else (SliceTake(filtered, PageSize); Slice(filtered, 0, PageSize))
  }

  /** The "Show More" button appears only when there are cards beyond the
      first six, and then it hides exactly those. */
  lemma ShowMoreHidesTheRest(filtered: seq<Project>)
    ensures |filtered| > PageSize <==> DisplayProjects(filtered, false) != filtered
    ensures |filtered| > PageSize ==> |filtered| - PageSize == |filtered| - |DisplayProjects(filtered, false)|
  {
  }

  /** `Array.prototype.findIndex` on ids. */
  function FindIndex(ps: seq<Project>, id: int): (r: int)
    ensures -1 <= r < |ps|
    ensures r == -1 <==> forall i :: 0 <= i < |ps| ==> ps[i].id != id
    ensures r >= 0 ==> ps[r].id == id && forall j :: 0 <= j < r ==> ps[j].id != id
  {
    if ps == [] then -1
    else if ps[0].id == id then 0
    else
      var k := FindIndex(ps[1..], id);
      if k == -1 then -1 else k + 1
  }

  /** With unique ids, looking up the id at a position finds that position. */
  lemma FindIndexOfPosition(ps: seq<Project>, i: nat)
    requires Distinct(Ids(ps)) && i < |ps|
    ensures FindIndex(ps, ps[i].id) == i
  {
    var k := FindIndex(ps, ps[i].id);
    assert Ids(ps)[k] == Ids(ps)[i];
  }

  /** `projectIndex`: the selected project's position, `0` when nothing is
      open and `-1` when the open project is not in the filtered list. */
  function ProjectIndex(filtered: seq<Project>, selected: Option<int>): (idx: int)
    ensures selected.None? ==> idx == 0
    ensures selected.Some? ==> idx == FindIndex(filtered, selected.value)
  {
    if selected.None? then 0 else FindIndex(filtered, selected.value)
  }

  /** What `paginate` does: nothing while no project is open; otherwise it
      opens the project `direction` steps away, wrapping around both ends; on
      an empty list `filteredProjects[NaN].id` throws. */
  datatype PageStep = Stay | MoveTo(id: int) | Throws

  function Paginate(filtered: seq<Project>, selected: Option<int>, direction: int): (r: PageStep)
    ensures selected.None? ==> r == Stay
    ensures selected.Some? && filtered == [] ==> r == Throws
    ensures selected.Some? && filtered != [] ==>
              r == MoveTo(filtered[(ProjectIndex(filtered, selected) + direction) % |filtered|].id)
  {
    if selected.None? then Stay
    else
      match Wrap(0, |filtered|, ProjectIndex(filtered, selected) + direction)
      case None => Throws
      case Some(k) =>
        WrapIsModulus(0, |filtered|, ProjectIndex(filtered, selected) + direction);
        MoveTo(filtered[k].id)
  }

  /** Stepping forward and then back returns to the project that was open. */
  lemma PaginateRoundTrip(filtered: seq<Project>, i: nat)
    requires Distinct(Ids(filtered)) && i < |filtered|
    ensures var next := Paginate(filtered, Some(filtered[i].id), 1);
            next.MoveTo? && Paginate(filtered, Some(next.id), -1) == MoveTo(filtered[i].id)
  {
    var n := |filtered|;
    var j := (i + 1) % n;
    PaginateFrom(filtered, i, 1);
    PaginateFrom(filtered, j, -1);
    StepBack(i, n);
  }

  /** One step forward and one back, modulo `n`, return to the start. */
  lemma StepBack(i: int, n: int)
    requires 0 <= i < n
    ensures 0 <= (i + 1) % n < n && ((i + 1) % n - 1) % n == i
  {
    if i + 1 < n {
      ModUnique(i + 1, n, 0, i + 1);
      ModUnique(i, n, 0, i);
    } else {
      ModUnique(i + 1, n, 1, 0);
      ModUnique(-1, n, -1, n - 1);
    }
  }

  /** From the project at position `i`, a step of `d` opens the project at
      position `i + d` modulo the list length. */
  lemma PaginateFrom(filtered: seq<Project>, i: nat, d: int)
    requires Distinct(Ids(filtered)) && i < |filtered|
    ensures Paginate(filtered, Some(filtered[i].id), d) == MoveTo(filtered[(i + d) % |filtered|].id)
  {
    FindIndexOfPosition(filtered, i);
  }

  /** Past the last project the next one is the first, and before the first
      comes the last, although the modal hides the matching button there. */
  lemma PaginateWraps(filtered: seq<Project>)
    requires Distinct(Ids(filtered)) && filtered != []
    ensures Paginate(filtered, Some(filtered[|filtered| - 1].id), 1) == MoveTo(filtered[0].id)
    ensures Paginate(filtered, Some(filtered[0].id), -1) == MoveTo(filtered[|filtered| - 1].id)
    ensures !PrevShown(filtered, Some(filtered[0].id)) && !NextShown(filtered, Some(filtered[|filtered| - 1].id))
  {
    var n := |filtered|;
    FindIndexOfPosition(filtered, n - 1);
    FindIndexOfPosition(filtered, 0);
    ModUnique(n, n, 1, 0);
    ModUnique(-1, n, -1, n - 1);
  }

  /** The modal's previous button. */
  predicate PrevShown(filtered: seq<Project>, selected: Option<int>) {
    ProjectIndex(filtered, selected) > 0
  }

  /** The modal's next button. */
  predicate NextShown(filtered: seq<Project>, selected: Option<int>) {
    ProjectIndex(filtered, selected) < |filtered| - 1
  }

  /** With distinct ids, the open project at position `i` has a previous
      button exactly when it is not the first and a next button exactly when
      it is not the last. */
  lemma ButtonsAtPosition(filtered: seq<Project>, i: nat)
    requires Distinct(Ids(filtered)) && i < |filtered|
    ensures PrevShown(filtered, Some(filtered[i].id)) <==> i > 0
    ensures NextShown(filtered, Some(filtered[i].id)) <==> i < |filtered| - 1
  {
    FindIndexOfPosition(filtered, i);
  }

  // ---------------------------------------------------------------------------
  // Component state
  // ---------------------------------------------------------------------------

  class GalleryState {
    var selectedCategory: string
    var selectedProject: Option<int>
    var direction: int
    var showAllProjects: bool

    constructor ()
      ensures selectedCategory == "All" && selectedProject.None?
      ensures direction == 0 && !showAllProjects
    {
      selectedCategory := "All";
      selectedProject := None;
      direction := 0;
      showAllProjects := false;
    }

    /** A category chip. */
    method SelectCategory(category: string)
      modifies this
      ensures selectedCategory == category
      ensures selectedProject == old(selectedProject) && direction == old(direction)
      ensures showAllProjects == old(showAllProjects)
    {
      selectedCategory := category;
    }

    /** A card opens its project. */
    method Open(id: int)
      modifies this
      ensures selectedProject == Some(id)
      ensures selectedCategory == old(selectedCategory) && direction == old(direction)
      ensures showAllProjects == old(showAllProjects)
    {
      selectedProject := Some(id);
    }

    /** The close button or a click on the backdrop. */
    method Close()
      modifies this
      ensures selectedProject.None?
      ensures selectedCategory == old(selectedCategory) && direction == old(direction)
      ensures showAllProjects == old(showAllProjects)
    {
      selectedProject := None;
    }

    /** "Show More" / "Show Less". */
    method ToggleShowAll()
      modifies this
      ensures showAllProjects == !old(showAllProjects)
      ensures selectedCategory == old(selectedCategory) && selectedProject == old(selectedProject)
      ensures direction == old(direction)
    {
      showAllProjects := !showAllProjects;
    }

    /** `paginate(newDirection)`, also bound to swiping left (`+1`) and right
        (`-1`). When the lookup throws, no state changes. */
    method Page(newDirection: int) returns (step: PageStep)
      modifies this
      ensures step == Paginate(FilteredProjects(old(selectedCategory)), old(selectedProject), newDirection)
      ensures step.MoveTo? ==> selectedProject == Some(step.id) && direction == newDirection
      ensures !step.MoveTo? ==> selectedProject == old(selectedProject) && direction == old(direction)
      ensures selectedCategory == old(selectedCategory) && showAllProjects == old(showAllProjects)
    {
      step := Paginate(FilteredProjects(selectedCategory), selectedProject, newDirection);
      if step.MoveTo? {
        selectedProject := Some(step.id);
        direction := newDirection;
      }
    }
  }
}
