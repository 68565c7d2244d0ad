/** The decorator-built help text of app/help_menu.py: each decorator appends
    one section to the text of the component it wraps, and a builder chains
    them. */
module HelpMenu {
  import opened Exceptions
  import opened Text
  import opened Operations

  /** `"=" * 64 + "\n"`, the rule under every section title. */
  const Rule: string := "================================================================\n"

  /** `"═" * 64`, the top and bottom edges of the box. */
  const BoxLine: string := "════════════════════════════════════════════════════════════════"

  /** `BaseHelpMenu.get_help_text()`. */
  const BaseText: string :=
    "\n╔" + BoxLine + "╗\n"
    + "║              ADVANCED CALCULATOR - HELP MENU                   ║\n"
    + "╔" + BoxLine + "╗\n"
    + "\n"
    + "BASIC USAGE:\n"
    + "  Enter command: <operation>\n"
    + "  First number: <operand1>\n"
    + "  Second number: <operand2>\n"
    + "  \n"
    + "GENERAL COMMANDS:\n"
    + "  help          - Display this help menu\n"
    + "  history       - Show calculation history\n"
    + "  clear         - Clear calculation history\n"
    + "  undo          - Undo last operation\n"
    + "  redo          - Redo previously undone operation\n"
    + "  save          - Save calculation history\n"
    + "  load          - Load calculation history\n"
    + "  exit/quit     - Exit the calculator\n"

  /** `NotesHelpDecorator._generate_footer()`. */
  const Footer: string := "╚" + BoxLine + "╝\n"

  const OperationsTitle := "\nAVAILABLE OPERATIONS:\n"
  const ExamplesTitle := "USAGE EXAMPLES:\n"
  const NotesTitle := "NOTES & TIPS:\n"

  /** `OperationsHelpDecorator._get_default_descriptions()`. */
  const DefaultDescriptions: map<string, string> := map[
    "add" := "Add two numbers (a + b)",
    "subtract" := "Subtract two numbers (a - b)",
    "multiply" := "Multiply two numbers (a × b)",
    "divide" := "Divide two numbers (a ÷ b)",
    "power" := "Raise a to the power of b (a^b)",
    "root" := "Calculate the b-th root of a (a^(1/b))",
    "modulus" := "Calculate remainder of a divided by b (a mod b)",
    "int_divide" := "Integer division (floor division) (a // b)",
    "percent" := "Calculate what percentage a is of b ((a/b) × 100)",
    "abs_diff" := "Calculate absolute difference between a and b (|a - b|)"
  ]

  /** `ExamplesHelpDecorator._get_default_examples()`. */
  const DefaultExamples: seq<string> := [
    "add 5 3           → Result: 8",
    "subtract 10 4     → Result: 6",
    "multiply 7 6      → Result: 42",
    "divide 15 3       → Result: 5",
    "power 2 8         → Result: 256",
    "root 27 3         → Result: 3 (cube root)",
    "modulus 17 5      → Result: 2",
    "int_divide 17 5   → Result: 3",
    "percent 50 200    → Result: 25 (50 is 25% of 200)",
    "abs_diff -5 3     → Result: 8"
  ]

  /** `NotesHelpDecorator._get_default_notes()`. */
  const DefaultNotes: seq<string> := [
    "• Decimal numbers are supported (e.g., 3.14, 2.5)",
    "• Negative numbers must be entered carefully",
    "• Division by zero will result in an error",
    "• History is automatically saved between sessions",
    "• Use 'undo' to revert mistakes",
    "• Type 'exit' to close the calculator"
  ]

  /** A help component: the base menu or a decorator around another component. */
  datatype HelpComponent =
    | BaseHelpMenu
    | HelpMenuDecorator(component: HelpComponent)
    | OperationsHelpDecorator(component: HelpComponent, operationDescriptions: map<string, string>)
    | ExamplesHelpDecorator(component: HelpComponent, examples: seq<string>)
    | NotesHelpDecorator(component: HelpComponent, notes: seq<string>)

  /** `OperationsHelpDecorator(component, operation_descriptions)`: `None` and
      an empty dict fall back to the defaults (`descriptions or defaults`). */
  function NewOperationsHelp(component: HelpComponent, descriptions: Option<map<string, string>>): (r: HelpComponent)
    ensures r.OperationsHelpDecorator? && r.component == component
    ensures r.operationDescriptions != map[]
    ensures descriptions.Some? && descriptions.value != map[] ==> r.operationDescriptions == descriptions.value
    ensures descriptions.None? || descriptions.value == map[] ==> r.operationDescriptions == DefaultDescriptions
  {
    assert "add" in DefaultDescriptions;
    OperationsHelpDecorator(component,
      if descriptions.Some? && descriptions.value != map[] then descriptions.value else DefaultDescriptions)
  }

  /** `ExamplesHelpDecorator(component, examples)`, with the same fallback. */
  function NewExamplesHelp(component: HelpComponent, examples: Option<seq<string>>): (r: HelpComponent)
    ensures r.ExamplesHelpDecorator? && r.component == component
    ensures r.examples != []
    ensures examples.Some? && examples.value != [] ==> r.examples == examples.value
    ensures examples.None? || examples.value == [] ==> r.examples == DefaultExamples
  {
    ExamplesHelpDecorator(component,
      if examples.Some? && examples.value != [] then examples.value else DefaultExamples)
  }

  /** `NotesHelpDecorator(component, notes)`, with the same fallback. */
  function NewNotesHelp(component: HelpComponent, notes: Option<seq<string>>): (r: HelpComponent)
    ensures r.NotesHelpDecorator? && r.component == component
    ensures r.notes != []
    ensures notes.Some? && notes.value != [] ==> r.notes == notes.value
    ensures notes.None? || notes.value == [] ==> r.notes == DefaultNotes
  {
    NotesHelpDecorator(component,
      if notes.Some? && notes.value != [] then notes.value else DefaultNotes)
  }

  /** `descriptions.get(name, f"Perform {name} operation")`. */
  function DescriptionOf(descriptions: map<string, string>, name: string): string {
    if name in descriptions then descriptions[name] else "Perform " + name + " operation"
  }

  /** `f"  {name:<15} - {description}\n"`. */
  function OperationLine(name: string, descriptions: map<string, string>): string {
    "  " + PadRight(name, 15) + " - " + DescriptionOf(descriptions, name) + "\n"
  }

  /** `OperationLine` with the descriptions fixed. */
  function OperationLineWith(descriptions: map<string, string>): string -> string {
    name => OperationLine(name, descriptions)
  }

  /** `f"  {item}\n"`. */
  function ItemLine(item: string): string {
    "  " + item + "\n"
  }

  /** The lines `line(x)` for every `x` of `xs`, in order. */
  function Lines(xs: seq<string>, line: string -> string): string {
    if xs == [] then ""
    else Lines(xs[..|xs| - 1], line) + line(xs[|xs| - 1])
  }

  /** `_generate_operations_section()` on the registry table `operations`. */
  function OperationsSection(operations: map<string, OpKind>, descriptions: map<string, string>): string {
    OperationsTitle + Rule + Lines(SortedKeys(operations.Keys), OperationLineWith(descriptions)) + "\n"
  }

  /** `_generate_examples_section()` and `_generate_notes_section()`: a title,
      the rule, the items, a blank line. */
  function ListSection(title: string, items: seq<string>): string {
    title + Rule + Lines(items, ItemLine) + "\n"
  }

  /** `get_help_text()`: `operations` is the registry table as it is when
      the text is asked for. */
  function GetHelpText(c: HelpComponent, operations: map<string, OpKind>): string {
    match c
    case BaseHelpMenu => BaseText
    case HelpMenuDecorator(inner) => GetHelpText(inner, operations)
    case OperationsHelpDecorator(inner, descriptions) =>
      GetHelpText(inner, operations) + OperationsSection(operations, descriptions)
    case ExamplesHelpDecorator(inner, examples) =>
      GetHelpText(inner, operations) + ListSection(ExamplesTitle, examples)
    case NotesHelpDecorator(inner, notes) =>
      GetHelpText(inner, operations) + ListSection(NotesTitle, notes) + Footer
  }

  /** Every decorator's text starts with the wrapped component's text; the
      base decorator adds nothing, the others add their section. */
  lemma WrappedTextIsPrefix(c: HelpComponent, operations: map<string, OpKind>)
    requires !c.BaseHelpMenu?
    ensures GetHelpText(c.component, operations) <= GetHelpText(c, operations)
    ensures c.HelpMenuDecorator? ==> GetHelpText(c, operations) == GetHelpText(c.component, operations)
    ensures c.OperationsHelpDecorator? ==>
      GetHelpText(c, operations) == GetHelpText(c.component, operations) + OperationsSection(operations, c.operationDescriptions)
    ensures c.NotesHelpDecorator? ==> Footer <= GetHelpText(c, operations)[|GetHelpText(c, operations)| - |Footer|..]
  {
  }

  lemma {:induction false} LinesAppend(a: seq<string>, b: seq<string>, line: string -> string)
    ensures Lines(a + b, line) == Lines(a, line) + Lines(b, line)
    decreases |b|
  {
    if b != [] {
      var n := |b| - 1;
      assert (a + b)[..|a + b| - 1] == a + b[..n];
      LinesAppend(a, b[..n], line);
    } else {
      assert a + b == a;
    }
  }

  /** One more item adds its line at the end. */
  lemma {:induction false} LinesStep(xs: seq<string>, line: string -> string, i: nat)
    requires i < |xs|
    ensures Lines(xs[..i + 1], line) == Lines(xs[..i], line) + line(xs[i])
  {
    assert xs[..i + 1][..i] == xs[..i];
  }

  /** The lines of `xs` split around the line of `xs[i]`. */
  lemma {:induction false} LinesSplit(xs: seq<string>, line: string -> string, i: nat)
    requires i < |xs|
    ensures Lines(xs, line) == Lines(xs[..i], line) + line(xs[i]) + Lines(xs[i + 1..], line)
  {
    var front := xs[..i] + [xs[i]];
    assert xs == front + xs[i + 1..];
    LinesAppend(front, xs[i + 1..], line);
    assert front[..|front| - 1] == xs[..i];
  }

  /** The operations section (`OperationsSection` is the title, the rule,
      these lines and a blank line) has one line per registered name, in
      ascending order: the `i`-th name is a registered one, every name before
      it is smaller, every name after it larger, and the lines split around
      its line. */
  lemma {:induction false} OperationsSectionListsName(operations: map<string, OpKind>, descriptions: map<string, string>, i: nat)
    requires i < |operations|
    ensures var names := SortedKeys(operations.Keys);
      && names[i] in operations
      && (forall j :: 0 <= j < i ==> Less(names[j], names[i]))
      && (forall j :: i < j < |names| ==> Less(names[i], names[j]))
      && Lines(names, OperationLineWith(descriptions)) ==
         Lines(names[..i], OperationLineWith(descriptions)) + OperationLine(names[i], descriptions)
         + Lines(names[i + 1..], OperationLineWith(descriptions))
  {
    var names := SortedKeys(operations.Keys);
    assert |operations.Keys| == |operations|;
    SortedKeysAscending(operations.Keys);
    LinesSplit(names, OperationLineWith(descriptions), i);
  }

  /** Every item of a list section gets its own indented line, in order. */
  lemma {:induction false} ListSectionShowsItem(title: string, items: seq<string>, i: nat)
    requires i < |items|
    ensures ListSection(title, items) ==
      title + Rule + Lines(items[..i], ItemLine) + "  " + items[i] + "\n" + Lines(items[i + 1..], ItemLine) + "\n"
  {
    LinesSplit(items, ItemLine, i);
  }

  /** A name without a description is shown as "Perform <name> operation". */
  lemma UnknownNameGetsDefaultDescription(name: string, descriptions: map<string, string>)
    requires name !in descriptions
    ensures OperationLine(name, descriptions) ==
      "  " + PadRight(name, 15) + " - Perform " + name + " operation\n"
  {
  }

  /** The line of `xs[i]` occurs in the lines of `xs`, after those before it. */
  lemma {:induction false} LineOccursInLines(xs: seq<string>, line: string -> string, i: nat)
    requires i < |xs|
    ensures OccursAt(line(xs[i]), Lines(xs, line), |Lines(xs[..i], line)|)
  {
    LinesSplit(xs, line, i);
    OccursBetween(Lines(xs[..i], line), line(xs[i]), Lines(xs[i + 1..], line));
  }

  /** Every registered name has its line in the operations section. */
  lemma {:induction false} SectionListsRegisteredName(operations: map<string, OpKind>, descriptions: map<string, string>, key: string)
    requires key in operations
    ensures exists k :: OccursAt(OperationLine(key, descriptions), OperationsSection(operations, descriptions), k)
  {
    var names := SortedKeys(operations.Keys);
    var line := OperationLineWith(descriptions);
    var i :| 0 <= i < |names| && names[i] == key;
    var piece := OperationLine(key, descriptions);
    var lines := Lines(names, line);
    LineOccursInLines(names, line, i);
    var k0 := |Lines(names[..i], line)|;
    assert OccursAt(piece, lines, k0);
    var head := OperationsTitle + Rule;
    OccursFramed(piece, head, lines, "\n", k0);
    assert OperationsSection(operations, descriptions) == head + lines + "\n";
    assert OccursAt(piece, OperationsSection(operations, descriptions), |head| + k0);
  }

  /** The registry is read when the text is asked for: a class registered
      after the component was built still gets its line in the text. */
  lemma {:induction false} RegisteredLaterIsListed(c: HelpComponent, operations: map<string, OpKind>, name: string, cls: OperationClass)
    requires c.OperationsHelpDecorator? && cls.OperationSubclass?
    ensures var updated := Register(operations, name, cls).value;
      && Lower(name) in SortedKeys(updated.Keys)
      && GetHelpText(c, updated) == GetHelpText(c.component, updated) + OperationsSection(updated, c.operationDescriptions)
      && exists k :: OccursAt(OperationLine(Lower(name), c.operationDescriptions), GetHelpText(c, updated), k)
  {
    var updated := Register(operations, name, cls).value;
    var d := c.operationDescriptions;
    var piece := OperationLine(Lower(name), d);
    var section := OperationsSection(updated, d);
    SectionListsRegisteredName(updated, d, Lower(name));
    var k :| OccursAt(piece, section, k);
    var inner := GetHelpText(c.component, updated);
    OccursShifted(piece, section, inner, k);
  }

  /** Whether an operations decorator is somewhere in the chain. */
  predicate HasOperationsSection(c: HelpComponent) {
    match c
    case BaseHelpMenu => false
    case OperationsHelpDecorator(_, _) => true
    case HelpMenuDecorator(inner) => HasOperationsSection(inner)
    case ExamplesHelpDecorator(inner, _) => HasOperationsSection(inner)
    case NotesHelpDecorator(inner, _) => HasOperationsSection(inner)
  }

  /** The name starts two characters into its operation line. */
  lemma NameOccursInLine(name: string, descriptions: map<string, string>)
    ensures OccursAt(name, OperationLine(name, descriptions), 2)
  {
    var padded := PadRight(name, 15);
    var line := OperationLine(name, descriptions);
    assert line == "  " + padded + (" - " + DescriptionOf(descriptions, name) + "\n");
    assert line[2..2 + |name|] == padded[..|name|];
  }

  /** Whatever wraps an operations decorator, the lower-cased name of a
      class registered after the menu was built occurs in its help text. */
  lemma {:induction false} RegisteredNameInText(c: HelpComponent, operations: map<string, OpKind>, name: string, cls: OperationClass)
    requires HasOperationsSection(c) && cls.OperationSubclass?
    ensures exists k :: OccursAt(Lower(name), GetHelpText(c, Register(operations, name, cls).value), k)
    decreases c
  {
    var updated := Register(operations, name, cls).value;
    var key := Lower(name);
    var text := GetHelpText(c, updated);
    if c.OperationsHelpDecorator? {
      var d := c.operationDescriptions;
      RegisteredLaterIsListed(c, operations, name, cls);
      var k :| OccursAt(OperationLine(key, d), text, k);
      NameOccursInLine(key, d);
      OccursWithin(key, OperationLine(key, d), text, 2, k);
    } else {
      RegisteredNameInText(c.component, operations, name, cls);
      var inner := GetHelpText(c.component, updated);
      var k :| OccursAt(key, inner, k);
      if c.HelpMenuDecorator? {
        assert text == inner;
      } else if c.ExamplesHelpDecorator? {
        OccursExtended(key, inner, ListSection(ExamplesTitle, c.examples), k);
        assert OccursAt(key, text, k);
      } else {
        var notes := ListSection(NotesTitle, c.notes);
        OccursExtended(key, inner, notes, k);
        OccursExtended(key, inner + notes, Footer, k);
        assert OccursAt(key, text, k);
      }
    }
  }

  /** Registering `Square` at run time puts "square" in the help text of
      any menu with an operations section, the default menu included. */
  lemma {:induction false} SquareIsListed(c: HelpComponent, operations: map<string, OpKind>)
    requires HasOperationsSection(c)
    ensures exists k :: OccursAt("square", GetHelpText(c, Register(operations, "square", OperationSubclass(UserDefined("Square"))).value), k)
  {
    LowerOfLowerCase("square");
    RegisteredNameInText(c, operations, "square", OperationSubclass(UserDefined("Square")));
  }

  /** The default descriptions have none for `square`, so its line reads
      "Perform square operation". */
  lemma {:induction false} SquareDescription()
    ensures "square" !in DefaultDescriptions
    ensures DescriptionOf(DefaultDescriptions, "square") == "Perform square operation"
  {
  }

  /** The operation lines end in a newline. */
  lemma {:induction false} OperationLinesEndWithNewline(names: seq<string>, descriptions: map<string, string>)
    requires names != []
    ensures var t := Lines(names, OperationLineWith(descriptions)); |t| > 0 && t[|t| - 1] == '\n'
  {
  }

  /** The last two characters of a text come from its last part when that
      part has at least two. */
  lemma {:induction false} TailOf(p: string, q: string)
    requires |q| >= 2
    ensures (p + q)[|p + q| - 2] == q[|q| - 2] && (p + q)[|p + q| - 1] == q[|q| - 1]
  {
  }

  /** A text finished by the notes decorator ends with the footer's corner
      and a newline. */
  lemma {:induction false} NotesTextEnding(c: HelpComponent, operations: map<string, OpKind>)
    requires c.NotesHelpDecorator?
    ensures var t := GetHelpText(c, operations); |t| >= 2 && t[|t| - 2] == '╝' && t[|t| - 1] == '\n'
  {
    assert Footer[|Footer| - 2] == '╝' && Footer[|Footer| - 1] == '\n';
    TailOf(GetHelpText(c.component, operations) + ListSection(NotesTitle, c.notes), Footer);
  }

  /** A text finished by the operations decorator ends with a blank line. */
  lemma {:induction false} OperationsTextEnding(c: HelpComponent, operations: map<string, OpKind>)
    requires c.OperationsHelpDecorator?
    ensures var t := GetHelpText(c, operations); |t| >= 2 && t[|t| - 2] == '\n' && t[|t| - 1] == '\n'
  {
    var names := SortedKeys(operations.Keys);
    var lines := Lines(names, OperationLineWith(c.operationDescriptions));
    var header := OperationsTitle + Rule;
    assert header[|header| - 1] == '\n';
    var body := header + lines;
    assert body[|body| - 1] == '\n' by {
      if names != [] {
        OperationLinesEndWithNewline(names, c.operationDescriptions);
      } else {
        assert body == header;
      }
    }
    TailOf(GetHelpText(c.component, operations), body + "\n");
  }

  /** Decorator order matters: a menu whose outermost decorator adds the
      notes and one whose outermost decorator adds the operations never show
      the same text, whatever the registry holds; in particular
      Notes(Examples(Operations(Base))) differs from
      Operations(Examples(Notes(Base))). */
  lemma {:induction false} DecoratorOrderMatters(c1: HelpComponent, c2: HelpComponent, operations: map<string, OpKind>)
    requires c1.NotesHelpDecorator? && c2.OperationsHelpDecorator?
    ensures GetHelpText(c1, operations) != GetHelpText(c2, operations)
  {
    NotesTextEnding(c1, operations);
    OperationsTextEnding(c2, operations);
  }

  /** The line the loop formats for the `i`-th name is the next operation line. */
  lemma {:induction false} OperationLineStep(names: seq<string>, descriptions: map<string, string>, i: nat, description: string)
    requires i < |names|
    requires description == if names[i] in descriptions then descriptions[names[i]] else "Perform " + names[i] + " operation"
    ensures Lines(names[..i + 1], OperationLineWith(descriptions))
      == Lines(names[..i], OperationLineWith(descriptions)) + ("  " + PadRight(names[i], 15) + " - " + description + "\n")
  {
    LinesStep(names, OperationLineWith(descriptions), i);
  }

  /** `_generate_operations_section()`: the loop over the sorted keys. */
  method GenerateOperationsSection(operationDescriptions: map<string, string>, operations: map<string, OpKind>)
    returns (operationsText: string)
    ensures operationsText == OperationsSection(operations, operationDescriptions)
  {
    var names := SortedKeys(operations.Keys);
    var lines := "";
    for i := 0 to |names|
      invariant lines == Lines(names[..i], OperationLineWith(operationDescriptions))
    {
      var name := names[i];
      var description := if name in operationDescriptions then operationDescriptions[name]
                         else "Perform " + name + " operation";
      var line := "  " + PadRight(name, 15) + " - " + description + "\n";
      OperationLineStep(names, operationDescriptions, i, description);
      lines := lines + line;
    }
    assert names[..|names|] == names;
    operationsText := OperationsTitle + Rule + lines + "\n";
  }

  /** `_generate_examples_section()` / `_generate_notes_section()`: the loop
      over the items under `title`. */
  method GenerateListSection(title: string, items: seq<string>) returns (text: string)
    ensures text == ListSection(title, items)
  {
    var lines := "";
    for i := 0 to |items|
      invariant lines == Lines(items[..i], ItemLine)
    {
      LinesStep(items, ItemLine, i);
      lines := lines + "  " + items[i] + "\n";
    }
    assert items[..|items|] == items;
    text := title + Rule + lines + "\n";
  }

  /** `HelpMenuBuilder`: every `with_*` wraps the current component and
      returns the builder itself. */
  class HelpMenuBuilder {
    var component: HelpComponent

    constructor ()
      ensures component == BaseHelpMenu
    {
      component := BaseHelpMenu;
    }

    method WithOperations(operationDescriptions: Option<map<string, string>>) returns (self: HelpMenuBuilder)
      modifies this
      ensures self == this
      ensures component == NewOperationsHelp(old(component), operationDescriptions)
    {
      component := NewOperationsHelp(component, operationDescriptions);
      self := this;
    }

    method WithExamples(examples: Option<seq<string>>) returns (self: HelpMenuBuilder)
      modifies this
      ensures self == this
      ensures component == NewExamplesHelp(old(component), examples)
    {
      component := NewExamplesHelp(component, examples);
      self := this;
    }

    method WithNotes(notes: Option<seq<string>>) returns (self: HelpMenuBuilder)
      modifies this
      ensures self == this
      ensures component == NewNotesHelp(old(component), notes)
    {
      component := NewNotesHelp(component, notes);
      self := this;
    }

    method Build() returns (c: HelpComponent)
      ensures c == component
    {
      c := component;
    }
  }

  /** `create_default_help_menu()`: Notes(Examples(Operations(Base))) with
      every default. */
  method CreateDefaultHelpMenu() returns (c: HelpComponent)
    ensures c == NotesHelpDecorator(ExamplesHelpDecorator(
      OperationsHelpDecorator(BaseHelpMenu, DefaultDescriptions), DefaultExamples), DefaultNotes)
    ensures HasOperationsSection(c)
  {
    var builder := new HelpMenuBuilder();
    var b1 := builder.WithOperations(None);
    var b2 := b1.WithExamples(None);
    var b3 := b2.WithNotes(None);
    c := b3.Build();
  }

  /** A menu of the default shape Notes(Examples(Operations(Base))) shows the
      base text (`BaseText`), then the operations, examples and notes
      sections, then the footer. */
  lemma {:induction false} DefaultShapeText(descriptions: map<string, string>, examples: seq<string>, notes: seq<string>,
                                            operations: map<string, OpKind>)
    ensures
      var c := NotesHelpDecorator(ExamplesHelpDecorator(
        OperationsHelpDecorator(BaseHelpMenu, descriptions), examples), notes);
      GetHelpText(c, operations) ==
      GetHelpText(BaseHelpMenu, operations) + OperationsSection(operations, descriptions)
      + ListSection(ExamplesTitle, examples) + ListSection(NotesTitle, notes) + Footer
  {
    var ops := OperationsHelpDecorator(BaseHelpMenu, descriptions);
    var ex := ExamplesHelpDecorator(ops, examples);
    assert GetHelpText(ex, operations) == GetHelpText(ops, operations) + ListSection(ExamplesTitle, examples);
  }
}
