/**
 * The quick-add bar (src/components/QuickAdd.tsx). Outside BEGINNER mode it
 * is a one-line form whose text is parsed into a task: `#word` names the
 * category, `!high` / `!medium` set the priority, and the task is due now.
 * Next to it a "+" button opens the task dialog on a new task; in BEGINNER
 * mode the form is left out and only that button is shown.
 */
module QuickAdd {
  import opened Dates
  import opened Types
  import opened JsString
  import opened TaskStore
  import opened UserContext
  import opened TaskEditModal

  const DefaultCategory := "General"
  const QuickEffort := 15

  /** The category of a tagged entry: the second `#`-piece up to its first space, trimmed. */
  function Tag(input: string): (r: string)
    ensures '#' !in r && ' ' !in r
  {
    var piece := Before(Before(After(input, '#'), '#'), ' ');
    var r := Trim(piece);
    assert forall c :: c in r ==> c in piece;
    r
  }

  /** The priority chosen by the markers; `!medium` wins when both appear. */
  function MarkedPriority(input: string): (p: Priority)
    ensures p == MEDIUM <==> Contains(input, "!medium")
    ensures p == HIGH <==> Contains(input, "!high") && !Contains(input, "!medium")
    ensures p == LOW <==> !Contains(input, "!high") && !Contains(input, "!medium")
  {
    var p := LOW;
    var p := if Contains(input, "!high") then HIGH else p;
    if Contains(input, "!medium") then MEDIUM else p
  }

  /** The task `handleSubmit` hands to `addTask` for a non-blank entry, due at `now`. */
  function QuickDraft(input: string, now: Instant): (d: TaskDraft)
    ensures !d.completed && !d.inProgress && d.effort == QuickEffort && d.dueDate == Some(now)
    ensures d.priority == MarkedPriority(input)
    ensures '#' !in input ==> d.title == input && d.category == Some(DefaultCategory)
    ensures '#' in input ==> '#' !in d.title && d.category == Some(Tag(input))
  {
    var title := if '#' in input then Trim(Before(input, '#')) else input;
    assert forall c :: c in title && '#' in input ==> c in Before(input, '#');
    var category := if '#' in input then Tag(input) else DefaultCategory;
    TaskDraft(title, false, false, MarkedPriority(input), QuickEffort, Some(category), Some(now))
  }

  /**
   * A tagged entry `a#b` (with no `#` in `a`): the title is `a` trimmed and
   * the category is the first word of `b`'s first `#`-piece, trimmed.
   */
  lemma TaggedEntry(a: string, b: string, now: Instant)
    requires '#' !in a
    ensures QuickDraft(a + "#" + b, now).title == Trim(a)
    ensures QuickDraft(a + "#" + b, now).category == Some(Trim(Before(Before(b, '#'), ' ')))
  {
    BeforeAfterSplit(a, b, '#');
  }

  /** An entry that starts with `#` gets an empty title, which is not rejected. */
  lemma LeadingHashEmptyTitle(b: string, now: Instant)
    ensures QuickDraft("#" + b, now).title == ""
  {
    TaggedEntry("", b, now);
    assert "" + "#" + b == "#" + b;
  }

  /** The example entry of the parser: "Buy milk #personal !high 15m". */
  lemma ParserExample(now: Instant)
    ensures QuickDraft("Buy milk #personal !high 15m", now).title == "Buy milk"
    ensures QuickDraft("Buy milk #personal !high 15m", now).category == Some("personal")
    ensures QuickDraft("Buy milk #personal !high 15m", now).priority == HIGH
  {
    var input := "Buy milk #personal !high 15m";
    assert input == "Buy milk " + "#" + "personal !high 15m";
    TaggedEntry("Buy milk ", "personal !high 15m", now);
    ExampleTitle();
    ExampleCategory("personal !high 15m");
    ExamplePriority(input);
  }

  lemma ExampleTitle()
    ensures Trim("Buy milk ") == "Buy milk"
  {
    assert LeadingSpaces("Buy milk ") == 0;
    assert TrimEnd("Buy milk ") == TrimEnd("Buy milk");
  }

  lemma ExampleCategory(b: string)
    requires b == "personal !high 15m"
    ensures Trim(Before(Before(b, '#'), ' ')) == "personal"
  {
    var w, rest := "personal", "!high 15m";
    assert b == w + [' '] + rest;
    NoHashInExample(b);
    BeforeAbsent(b, '#');
    assert ' ' !in w;
    BeforeAfterSplit(w, rest, ' ');
    assert Before(Before(b, '#'), ' ') == w;
    TrimWord();
  }

  lemma NoHashInExample(b: string)
    requires b == "personal !high 15m"
    ensures '#' !in b
  {
  }

  lemma TrimWord()
    ensures Trim("personal") == "personal"
  {
  }

  lemma ExamplePriority(input: string)
    requires input == "Buy milk #personal !high 15m"
    ensures MarkedPriority(input) == HIGH
  {
    assert OccursAt(input, "!high", 19);
    ContainsIffOccurs(input, "!high");
    var a, b, c := "Buy milk #personal ", "!", "high 15m";
    assert input == a + (b + c);
    assert '!' !in a && '!' !in c;
    ContainsSkip(a, b + c, "!medium");
    assert (b + c)[..7][1] == 'h';
    ContainsSkip(c, [], "!medium");
    assert c + [] == c;
  }

  /** The form is shown in every mode but BEGINNER, which gets the add button instead. */
  predicate ShowsParserForm(mode: UserMode) {
    mode != BEGINNER
  }

  /**
   * The bar keeps one task dialog mounted and only flips its `isOpen` prop,
   * so the dialog's form state, set up once at mount, carries over from one
   * opening to the next for as long as the bar stays mounted. A remount
   * (the list view left and shown again) starts from the constructor.
   */
  class QuickAddBar {
    /** The text in the input. */
    var input: string
    /** Whether the add dialog is open. */
    var isModalOpen: bool
    /** The mounted add dialog, on a new task. */
    const editor: TaskEditor

    /** The dialog edits a new task and is open exactly when the bar says so. */
    ghost predicate Valid()
      reads this, editor
    {
      editor.task.None? && editor.isOpen == isModalOpen
    }

    constructor()
      ensures Valid() && fresh(editor)
      ensures input == "" && !isModalOpen && editor.form == InitialForm(None)
    {
      input := "";
      isModalOpen := false;
      var e := new TaskEditor(None);
      e.isOpen := false;
      editor := e;
    }

    method SetInput(text: string)
      requires Valid()
      modifies this
      ensures Valid()
      ensures input == text && isModalOpen == old(isModalOpen)
    {
      input := text;
    }

    /**
     * `handleSubmit`: a blank entry does nothing; otherwise the parsed task is
     * added with the given fresh id and creation time and the input is cleared.
     */
    method Submit(s: Session, now: Instant, freshId: string, createdAt: int)
      requires s.Valid() && Valid()
      modifies this, s
      ensures s.Valid() && Valid()
      ensures isModalOpen == old(isModalOpen)
      ensures Trim(old(input)) == "" ==> s.State() == old(s.State()) && input == old(input)
      ensures Trim(old(input)) != "" ==>
                s.State() == old(s.State()).(tasks := AddTasks(old(s.tasks), Materialize(QuickDraft(old(input), now), freshId, createdAt)))
                && input == ""
    {
      if Trim(input) == "" {
        return;
      }
      s.AddTask(QuickDraft(input, now), freshId, createdAt);
      input := "";
    }

    /** The add button: the dialog opens on the form its last opening left. */
    method OpenModal()
      requires Valid()
      modifies this, editor
      ensures Valid()
      ensures isModalOpen && input == old(input) && editor.form == old(editor.form)
    {
      isModalOpen := true;
      editor.isOpen := true;
    }

    /** The dialog's `onClose`: it closes and its form is kept. */
    method CloseModal()
      requires Valid()
      modifies this, editor
      ensures Valid()
      ensures !isModalOpen && input == old(input) && editor.form == old(editor.form)
    {
      isModalOpen := false;
      editor.isOpen := false;
    }

    /**
     * The dialog's Save: the form is added as a new task and the dialog
     * closes. The form is not reset, so the next opening shows it again.
     */
    method SaveModal(s: Session, freshId: string, createdAt: int)
      requires s.Valid() && Valid() && isModalOpen
      modifies this, editor, s
      ensures s.Valid() && Valid()
      ensures s.State() == old(s.State()).(tasks := AddTasks(old(s.tasks), Materialize(NewDraft(old(editor.form)), freshId, createdAt)))
      ensures !isModalOpen && input == old(input) && editor.form == old(editor.form)
    {
      editor.Save(s, freshId, createdAt);
      isModalOpen := false;
    }
  }
}
