/** The tree section of a manifest, src/manifest.c: scoped lines, and the parser that turns them back
    into actions with a stack of open directories.

    Lines are split into fields and decoded: escaping is taken as injective, and the header and the
    conflict records around the section are not modelled. */
module Document {
  import opened Trees
  import opened Paths

  datatype Word =
    | Rm
    | Ln(arg: Path)
    | Cp(arg: Path)
    | Dup(arg: Path)
    | Write(arg: Path)
    | Conflict(number: nat)

  /** `struct zr_action`. */
  datatype Deed = Deed(path: Path, dir: bool, word: Word)

  /** A line of the section: the root's, a name with its slash and what it carries, or two dots. */
  datatype Line = Root(word: Option<Word>) | Name(name: Leaf, dir: bool, word: Option<Word>) | Close

  const DOT: Byte := 46

  /** `zp_name_ok`. */
  predicate NameOk(c: Leaf) {
    c != [] && SLASH !in c && 0 !in c && c != [DOT] && c != [DOT, DOT]
  }

  /** `zp_arg_ok`, of a path in components. */
  predicate ArgOk(p: Path) { p != [] && forall c :: c in p ==> NameOk(c) }

  predicate WordOk(word: Word) {
    match word
    case Rm => true
    case Conflict(n) => n != 0
    case _ => ArgOk(word.arg)
  }

  /** The lines that take a name a removed directory held. */
  predicate Creates(dir: bool, word: Option<Word>) {
    !dir && word.Some? && (word.value.Cp? || word.value.Dup? || word.value.Ln?)
  }

  // ----- the parser

  /** `struct zp_scope`. */
  datatype Scope = Scope(path: Path, rm: bool)

  /** `struct zp_seen`; the line is its index. */
  datatype Seen = Seen(path: Path, second: bool)

  /** What `zp_tree` carries from line to line. */
  datatype State = State(stack: seq<Scope>, closed: Option<Scope>, seen: seq<Seen>, deeds: seq<Deed>) {

    /** Whether a name line at this path is the second of a type change. */
    predicate Second(path: Path, dir: bool, word: Option<Word>) {
      closed.Some? && closed.value.rm && closed.value.path == path && Creates(dir, word)
    }

    /** Why `zp_name_line` would refuse the line. */
    predicate Accepts(l: Line)
      requires l.Name? && stack != []
    {
      var path := stack[|stack| - 1].path + [l.name];
      && NameOk(l.name)
      && (l.word.None? ==> l.dir)
      && (l.word.Some? ==> WordOk(l.word.value))
      && (l.word.Some? && l.word.value.Ln? ==> Compare(Text(l.word.value.arg), Text(path)) < 0)
    }

    /** `zp_name_line`. */
    function AfterName(l: Line): State
      requires l.Name? && stack != []
    {
      var path := stack[|stack| - 1].path + [l.name];
      State(if l.dir then stack + [Scope(path, l.word == Some(Rm))] else stack,
            None,
            seen + [Seen(path, Second(path, l.dir, l.word))],
            if l.word.Some? then deeds + [Deed(path, l.dir, l.word.value)] else deeds)
    }

    /** Two dots. */
    function AfterClose(): State
      requires stack != []
    {
      State(stack[..|stack| - 1], Some(stack[|stack| - 1]), seen, deeds)
    }

    /** One line inside the section; the root's line opens it. */
    function After(l: Line): Option<State> {
      match l
      case Root(_) => None
      case Name(_, _, _) => if stack != [] && Accepts(l) then Some(AfterName(l)) else None
      case Close => if stack != [] then Some(AfterClose()) else None
    }
  }

  function Start(): State { State([Scope([], false)], None, [], []) }

  /** `zp_tree` over the first lines after the root's. */
  function Read(lines: seq<Line>): Option<State> {
    if lines == [] then Some(Start()) else
    var before := Read(lines[..|lines| - 1]);
    if before.None? || before.value.stack == [] then None else before.value.After(lines[|lines| - 1])
  }

  /** `zp_repeats`: a name twice, and not the second of a type change. */
  ghost predicate Repeats(seen: seq<Seen>) {
    exists i, j :: 0 <= i < j < |seen| && seen[i].path == seen[j].path && !seen[j].second
  }

  /** The section, whole: opened by the root's line, ended by the dots that close it. */
  ghost function Parse(lines: seq<Line>): Option<seq<Deed>> {
    if lines == [] || lines[0] != Root(None) then None else
    var end := Read(lines[1..]);
    if end.None? || end.value.stack != [] || Repeats(end.value.seen) then None else Some(end.value.deeds)
  }
}
