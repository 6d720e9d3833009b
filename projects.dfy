/**
 * The project showcase: a fixed catalogue of projects, a category selector
 * in which "All" means "no filter", the cards that show at most three tech
 * tags plus a "+k" overflow badge, and the slot holding the project whose
 * detail modal is open.
 */
module Projects {
  import opened Wrappers

  /** The fields of a project record that the logic reads; the rest is presentation. */
  datatype Project = Project(id: nat, title: string, category: string, tech: seq<string>)

  /** The selector entry that switches filtering off. */
  const All: string := "All"

  /** The selector buttons, in display order. */
  const Categories: seq<string> := ["All", "Web", "Mobile", "AI", "Design"]

  /** Every category a project may carry: the selector entries other than "All". */
  ghost predicate ValidCatalogue(ps: seq<Project>)
  {
    && (forall i, j :: 0 <= i < j < |ps| ==> ps[i].id != ps[j].id)
    && (forall i :: 0 <= i < |ps| ==> ps[i].category in Categories && ps[i].category != All)
  }

  /** The six projects of the showcase, in display order. */
  function Catalogue(): (ps: seq<Project>)
    ensures |ps| == 6
    ensures ValidCatalogue(ps)
  {
    [ Project(1, "E-Commerce Platform", "Web", ["React", "Node.js", "PostgreSQL", "Stripe"]),
      Project(2, "AI Content Generator", "AI", ["Python", "FastAPI", "OpenAI", "React"]),
      Project(3, "Fitness Tracking App", "Mobile", ["React Native", "Firebase", "TypeScript"]),
      Project(4, "Design System", "Design", ["Figma", "Storybook", "React", "Tailwind"]),
      Project(5, "Real-Time Analytics", "Web", ["Next.js", "WebSocket", "D3.js", "Redis"]),
      Project(6, "Smart Home Controller", "AI", ["Python", "MQTT", "React", "TensorFlow"]) ]
  }

  // ---------------------------------------------------------------------------
  // Filtering

  /** `xs` is obtained from `ys` by deleting elements, keeping the order of the rest. */
  ghost predicate IsSubsequence<T>(xs: seq<T>, ys: seq<T>)
    decreases |ys|
  {
    if xs == [] then true
    else if ys == [] then false
    else (xs[0] == ys[0] && IsSubsequence(xs[1..], ys[1..])) || IsSubsequence(xs, ys[1..])
  }

  /** The projects of `ps` whose category is `c`, in their original order. */
  function WithCategory(ps: seq<Project>, c: string): (r: seq<Project>)
    ensures |r| <= |ps|
    ensures forall p :: p in r ==> p in ps && p.category == c
  {
    if ps == [] then []
    else if ps[0].category == c then [ps[0]] + WithCategory(ps[1..], c)
    else WithCategory(ps[1..], c)
  }

  /** The cards on screen for the active selector entry. */
  function Filtered(ps: seq<Project>, active: string): seq<Project>
  {
    if active == All then ps else WithCategory(ps, active)
  }

  lemma {:induction false} SubsequenceBounds<T>(xs: seq<T>, ys: seq<T>)
    requires IsSubsequence(xs, ys)
    ensures |xs| <= |ys|
    ensures forall x :: x in xs ==> x in ys
    decreases |ys|
  {
    if xs == [] {
    } else if xs[0] == ys[0] && IsSubsequence(xs[1..], ys[1..]) {
      SubsequenceBounds(xs[1..], ys[1..]);
      forall x | x in xs ensures x in ys {
        if x != xs[0] {
          assert x in xs[1..];
        }
      }
    } else {
      SubsequenceBounds(xs, ys[1..]);
    }
  }

  lemma {:induction false} SubsequenceReflexive<T>(xs: seq<T>)
    ensures IsSubsequence(xs, xs)
    decreases |xs|
  {
    if xs != [] {
      SubsequenceReflexive(xs[1..]);
    }
  }

  lemma {:induction false} WithCategoryIsSubsequence(ps: seq<Project>, c: string)
    ensures IsSubsequence(WithCategory(ps, c), ps)
    decreases |ps|
  {
    if ps != [] {
      WithCategoryIsSubsequence(ps[1..], c);
      var r := WithCategory(ps, c);
      if ps[0].category == c {
        assert r[0] == ps[0] && r[1..] == WithCategory(ps[1..], c);
      } else if r != [] {
        assert r == WithCategory(ps[1..], c);
      }
    }
  }

  lemma {:induction false} WithCategoryComplete(ps: seq<Project>, c: string, p: Project)
    requires p in ps && p.category == c
    ensures p in WithCategory(ps, c)
    decreases |ps|
  {
    if ps[0] != p {
      assert p in ps[1..];
      WithCategoryComplete(ps[1..], c, p);
    }
  }

  lemma {:induction false} WithCategoryIdempotent(ps: seq<Project>, c: string)
    ensures WithCategory(WithCategory(ps, c), c) == WithCategory(ps, c)
    decreases |ps|
  {
    if ps != [] {
      WithCategoryIdempotent(ps[1..], c);
      if ps[0].category == c {
        var r := WithCategory(ps, c);
        assert r[0] == ps[0] && r[1..] == WithCategory(ps[1..], c);
      }
    }
  }

  /**
   * What the showcase promises about its filter: "All" shows the whole list;
   * any other entry shows exactly the projects of that category, as an
   * order-preserving subsequence of the list; filtering twice changes nothing.
   */
  lemma FilteredSpec(ps: seq<Project>, active: string)
    ensures active == All ==> Filtered(ps, active) == ps
    ensures active != All ==>
      forall p :: p in Filtered(ps, active) <==> p in ps && p.category == active
    ensures IsSubsequence(Filtered(ps, active), ps)
    ensures |Filtered(ps, active)| <= |ps|
    ensures Filtered(Filtered(ps, active), active) == Filtered(ps, active)
  {
    if active == All {
      SubsequenceReflexive(ps);
    } else {
      WithCategoryIsSubsequence(ps, active);
      WithCategoryIdempotent(ps, active);
      forall p | p in ps && p.category == active
        ensures p in Filtered(ps, active)
      {
        WithCategoryComplete(ps, active, p);
      }
    }
  }

  /** Every project of the showcase is reachable through some selector button other than "All". */
  lemma EveryProjectHasACategoryButton(p: Project)
    requires p in Catalogue()
    ensures exists c :: c in Categories && c != All && p in Filtered(Catalogue(), c)
  {
    var ps := Catalogue();
    var i :| 0 <= i < |ps| && ps[i] == p;
    WithCategoryComplete(ps, p.category, p);
    assert p.category in Categories && p.category != All && p in Filtered(ps, p.category);
  }

  // ---------------------------------------------------------------------------
  // Cards

  /** How many tech tags a card shows before folding the rest into the badge. */
  const ShownTagLimit: nat := 3

  /** A card's tag row: the tags shown and, when some are hidden, the "+k" badge. */
  datatype TagRow = TagRow(shown: seq<string>, badge: Option<nat>)

  /** `s.slice(0, n)`: the first `n` elements, or all of `s` when it is shorter. */
  function SliceFront<T>(s: seq<T>, n: nat): (r: seq<T>)
    ensures |r| == Min(n, |s|)
    ensures r == s[..|r|]
  {
    if |s| <= n then s else s[..n]
  }

  /** The tag row of a card for the given tech list. */
  function TagRowOf(tech: seq<string>): (row: TagRow)
    ensures |row.shown| == Min(ShownTagLimit, |tech|)
    ensures row.shown == tech[..|row.shown|]
    ensures row.badge.Some? <==> |tech| > ShownTagLimit
    ensures row.badge.Some? ==> |row.shown| + row.badge.value == |tech|
    ensures row.badge.None? ==> row.shown == tech
  {
    TagRow(SliceFront(tech, ShownTagLimit),
           if |tech| > ShownTagLimit then Some(|tech| - ShownTagLimit) else None)
  }

  // ---------------------------------------------------------------------------
  // Component state

  /** The showcase's two state slots: the active selector entry and the project in the modal. */
  class ProjectsView {
    var activeCategory: string
    var selectedProject: Option<Project>

    ghost predicate Valid()
      reads this
    {
      && activeCategory in Categories
      && (selectedProject.Some? ==> selectedProject.value in Catalogue())
    }

    /** The cards currently on screen. */
    function Visible(): (r: seq<Project>)
      reads this
      ensures forall p :: p in r ==> p in Catalogue()
    {
      FilteredSpec(Catalogue(), activeCategory);
      SubsequenceBounds(Filtered(Catalogue(), activeCategory), Catalogue());
      Filtered(Catalogue(), activeCategory)
    }

    predicate ModalOpen()
      reads this
    {
      selectedProject.Some?
    }

    constructor ()
      ensures Valid()
      ensures activeCategory == All && selectedProject == None
      ensures Visible() == Catalogue()
    {
      activeCategory := All;
      selectedProject := None;
    }

    /** A selector button was clicked. */
    method SelectCategory(c: string)
      requires Valid()
      requires c in Categories
      modifies this
      ensures Valid()
      ensures activeCategory == c && selectedProject == old(selectedProject)
    {
      activeCategory := c;
    }

    /** A card was clicked: its project goes into the modal slot. */
    method OpenDetails(p: Project)
      requires Valid()
      requires p in Visible()
      modifies this
      ensures Valid() && ModalOpen()
      ensures selectedProject == Some(p) && activeCategory == old(activeCategory)
    {
      selectedProject := Some(p);
    }

    /** The backdrop or the close button was clicked: the modal slot is emptied. */
    method CloseDetails()
      requires Valid()
      modifies this
      ensures Valid() && !ModalOpen()
      ensures activeCategory == old(activeCategory)
    {
      selectedProject := None;
    }
  }
}
