/** Keyboard shortcuts (hooks/useKeyboardShortcuts.ts): which registered
    shortcuts a key press fires, and the shortcut table the app defines. */
module KeyboardShortcuts {
  import opened Text

  /** A registered shortcut; an absent modifier flag reads as false. */
  datatype Shortcut = Shortcut(key: string, ctrlKey: bool, shiftKey: bool, altKey: bool,
                               description: string)

  /** A `keydown` event; `inTextField` says the target is an input or a textarea. */
  datatype KeyEvent = KeyEvent(key: string, ctrlKey: bool, metaKey: bool, shiftKey: bool,
                               altKey: bool, inTextField: bool)

  predicate KeyMatch(s: Shortcut, e: KeyEvent) {
    Lower(e.key) == Lower(s.key)
  }

  /** A ctrl shortcut accepts ctrl or meta; any other refuses both. */
  predicate CtrlMatch(s: Shortcut, e: KeyEvent) {
    if s.ctrlKey then e.ctrlKey || e.metaKey else !e.ctrlKey && !e.metaKey
  }

  predicate ShiftMatch(s: Shortcut, e: KeyEvent) {
    if s.shiftKey then e.shiftKey else !e.shiftKey
  }

  predicate AltMatch(s: Shortcut, e: KeyEvent) {
    if s.altKey then e.altKey else !e.altKey
  }

  predicate Matches(s: Shortcut, e: KeyEvent) {
    KeyMatch(s, e) && CtrlMatch(s, e) && ShiftMatch(s, e) && AltMatch(s, e)
  }

  /** A matching shortcut fires unless the press happened in a text field and
      the shortcut's key is not exactly "Escape". */
  predicate Fires(s: Shortcut, e: KeyEvent) {
    Matches(s, e) && !(s.key != "Escape" && e.inTextField)
  }

  /** `handleKeyDown(event)`: walks every shortcut in list order with no early
      exit; for each one that fires, `preventDefault` is called and then its
      callback. `fired` lists the callbacks run, in order; `prevented` counts
      the `preventDefault` calls. */
  method HandleKeyDown(shortcuts: seq<Shortcut>, e: KeyEvent) returns (fired: seq<nat>, prevented: nat)
    ensures forall k :: k in fired <==> 0 <= k < |shortcuts| && Fires(shortcuts[k], e)
    ensures forall i, j :: 0 <= i < j < |fired| ==> fired[i] < fired[j]
    ensures prevented == |fired|
  {
    fired := [];
    prevented := 0;
    var i := 0;
    while i < |shortcuts|
      invariant 0 <= i <= |shortcuts|
      invariant forall k :: k in fired <==> 0 <= k < i && Fires(shortcuts[k], e)
      invariant forall a :: 0 <= a < |fired| ==> fired[a] < i
      invariant forall a, b :: 0 <= a < b < |fired| ==> fired[a] < fired[b]
      invariant prevented == |fired|
    {
      var s := shortcuts[i];
      if Matches(s, e) {
        if !(s.key != "Escape" && e.inTextField) {
          prevented := prevented + 1;
          fired := fired + [i];
        }
      }
      i := i + 1;
    }
  }

  // ---------------------------------------------------------------------------
  // `KEYBOARD_SHORTCUTS`

  const NewTask: Shortcut := Shortcut("n", false, false, false, "Create new task")
  const Search: Shortcut := Shortcut("/", false, false, false, "Focus search")
  const EscapeKey: Shortcut := Shortcut("Escape", false, false, false, "Close dialog/modal")
  const Save: Shortcut := Shortcut("s", true, false, false, "Save (Ctrl+S)")
  const Help: Shortcut := Shortcut("?", false, true, false, "Show keyboard shortcuts")

  /** The key match ignores case on both sides. */
  lemma KeyMatchIgnoresCase(s: Shortcut, e: KeyEvent)
    ensures Matches(s, e) <==> Matches(s, e.(key := Lower(e.key)))
    ensures Matches(s, e) <==> Matches(s.(key := Lower(s.key)), e)
  {
    LowerIdempotent(e.key);
    LowerIdempotent(s.key);
  }

  /** Save fires on Ctrl+S and on Cmd+S (either case of "s"), outside text fields,
      with neither shift nor alt. */
  lemma SaveFiresOnCtrlOrMeta(e: KeyEvent)
    requires e.key == "s" || e.key == "S"
    requires !e.shiftKey && !e.altKey && !e.inTextField
    ensures Fires(Save, e) <==> e.ctrlKey || e.metaKey
  {
    assert Lower("s") == "s";
    assert Lower("S") == "s";
  }

  /** Help fires only with shift held. */
  lemma HelpNeedsShift(e: KeyEvent)
    ensures Fires(Help, e) ==> e.shiftKey
  {
  }

  /** The Escape shortcut still fires inside a text field; any shortcut whose
      key is not exactly "Escape" does not. */
  lemma EscapeFiresInTextFields(s: Shortcut, e: KeyEvent)
    requires e.inTextField && Matches(s, e)
    ensures Fires(s, e) <==> s.key == "Escape"
  {
  }
}
