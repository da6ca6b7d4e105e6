/** `useKeyboardNavigation`: the page-wide keydown handler that maps keys to
    sections and to the project modal's buttons. The DOM enters as
    parameters: whether focus is inside the modal and which of its buttons
    exist. The handler answers whether the default action is prevented and
    what it does. */
module KeyboardNavigation {
  import opened Optional
  import opened JsPrims

  datatype Target = Target(tagName: string, contentEditable: string)

  datatype KeyEvent = KeyEvent(key: string, ctrlKey: bool, altKey: bool, metaKey: bool, shiftKey: bool, target: Target)

  /** The document the handler looks at. */
  datatype Page = Page(focusInModal: bool, hasPrev: bool, hasNext: bool, hasClose: bool)

  datatype Section = Home | Performance | Gallery | About | Contact

  datatype Action = NoAction | Navigate(section: Section) | ClickPrev | ClickNext | ClickClose

  datatype Outcome = Outcome(preventDefault: bool, action: Action)

  const Ignored := Outcome(false, NoAction)

  /** The sections, the number keys and the letter keys, in the same order. */
  const Sections: seq<Section> := [Home, Performance, Gallery, About, Contact]
  const NumberKeys: seq<string> := ["1", "2", "3", "4", "5"]
  const LetterKeys: seq<string> := ["h", "p", "g", "a", "c"]

  /** The section a lower-cased key scrolls to. */
  function SectionFor(key: string): Option<Section> {
    if key == "1" || key == "h" then Some(Home)
    else if key == "2" || key == "p" then Some(Performance)
    else if key == "3" || key == "g" then Some(Gallery)
    else if key == "4" || key == "a" then Some(About)
    else if key == "5" || key == "c" then Some(Contact)
    else None
  }

  /** Number key `i + 1` and the i-th letter key lead to the i-th section. */
  lemma NumbersAndLettersAgree(i: nat)
    requires i < 5
    ensures SectionFor(NumberKeys[i]) == Some(Sections[i])
    ensures SectionFor(LetterKeys[i]) == Some(Sections[i])
  {
  }

  /** Only the ten shortcut keys lead to a section. */
  lemma OnlyShortcutsNavigate(key: string)
    requires SectionFor(key).Some?
    ensures key in NumberKeys || key in LetterKeys
  {
  }

  /** A target that takes typing. */
  predicate IsEditable(t: Target) {
    t.tagName == "INPUT" || t.tagName == "TEXTAREA" || t.contentEditable == "true"
  }

  /** `handleKeyDown` */
  function HandleKeyDown(e: KeyEvent, page: Page): (r: Outcome)
    ensures e.ctrlKey || e.altKey || e.metaKey || IsEditable(e.target) ==> r == Ignored
    ensures r.action.Navigate? ==> SectionFor(Lower(e.key)) == Some(r.action.section)
    ensures Handled(e) && SectionFor(Lower(e.key)).Some? ==>
              r == Outcome(true, Navigate(SectionFor(Lower(e.key)).value))
    ensures r.action == ClickPrev || r.action == ClickNext ==> page.focusInModal
    ensures r.action == ClickClose ==> page.hasClose && Lower(e.key) == "escape"
    ensures r.action.NoAction? && r.preventDefault ==> Lower(e.key) in {"escape", "arrowleft", "arrowright"}
  {
    if e.ctrlKey || e.altKey || e.metaKey then Ignored
    else if IsEditable(e.target) then Ignored
    else
      var key := Lower(e.key);
      match SectionFor(key)
      case Some(section) => Outcome(true, Navigate(section))
      case None =>
        if key == "arrowleft" then
          if page.focusInModal then Outcome(true, if page.hasPrev then ClickPrev else NoAction) else Ignored
        else if key == "arrowright" then
          if page.focusInModal then Outcome(true, if page.hasNext then ClickNext else NoAction) else Ignored
        else if key == "escape" then
          Outcome(true, if page.hasClose then ClickClose else NoAction)
        else Ignored
  }

  /** The handler on a plain key press in a non-editable target. */
  predicate Handled(e: KeyEvent) {
    !e.ctrlKey && !e.altKey && !e.metaKey && !IsEditable(e.target)
  }

  /** Shift is not a suppressing modifier, and case does not matter: "H" with
      Shift does what "h" does. */
  lemma ShiftAndCaseIgnored(e: KeyEvent, page: Page)
    requires Lower(e.key) == "h"
    requires Handled(e)
    ensures HandleKeyDown(e.(shiftKey := true), page) == Outcome(true, Navigate(Home))
    ensures HandleKeyDown(e.(key := "H"), page) == Outcome(true, Navigate(Home))
  {
    assert Lower("H") == "h";
  }

  /** The arrow keys act only inside the project modal. */
  lemma ArrowsNeedModal(e: KeyEvent, page: Page)
    requires Lower(e.key) == "arrowleft" || Lower(e.key) == "arrowright"
    ensures !page.focusInModal ==> HandleKeyDown(e, page) == Ignored
    ensures page.focusInModal && Handled(e) ==> HandleKeyDown(e, page).preventDefault
  {
    assert SectionFor(Lower(e.key)).None? by {
      assert |Lower(e.key)| > 1;
    }
  }

  /** Escape always prevents the default and clicks close when it exists. */
  lemma EscapeAlwaysHandled(e: KeyEvent, page: Page)
    requires Lower(e.key) == "escape" && Handled(e)
    ensures HandleKeyDown(e, page).preventDefault
    ensures HandleKeyDown(e, page).action == (if page.hasClose then ClickClose else NoAction)
  {
    assert SectionFor(Lower(e.key)).None? by {
      assert |Lower(e.key)| > 1;
    }
  }

  /** On a plain key press, the default is prevented exactly for a shortcut
      key, Escape, and an arrow key inside the modal: every other key passes
      through untouched. */
  lemma PreventedKeys(e: KeyEvent, page: Page)
    requires Handled(e)
    ensures var key := Lower(e.key);
            HandleKeyDown(e, page).preventDefault <==>
              SectionFor(key).Some? || key == "escape" ||
              (page.focusInModal && (key == "arrowleft" || key == "arrowright"))
  {
    var key := Lower(e.key);
    if key == "escape" || key == "arrowleft" || key == "arrowright" {
      assert |key| > 1;
    }
  }

  /** A key with no mapping is left alone: no default prevented, nothing done. */
  lemma UnmappedKeyIgnored(e: KeyEvent, page: Page)
    requires SectionFor(Lower(e.key)).None?
    requires Lower(e.key) !in {"escape", "arrowleft", "arrowright"}
    ensures HandleKeyDown(e, page) == Ignored
  {
  }
}
