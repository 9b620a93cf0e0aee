/** The dates in a TinyDB file: written as marked texts, and found again by a walk over the whole document. */
module TinyDates {
  import opened Options
  import opened Database

  /** A document of the file before and after the walk; only a document in memory holds dates. */
  datatype Raw =
    | Nothing
    | Flag(b: bool)
    | Number(n: int)
    | Words(s: string)
    | Date(t: int)
    | Items(items: seq<Raw>)
    | Record(fields: map<string, Raw>)

  const MARKER := "{TinyDate}:"

  /** A marked text that is no date stays a text. */
  function ParseWords(s: string, tt: TimeText): Raw {
    if MARKER <= s && tt.parse(s[|MARKER|..]).Some? then Date(tt.parse(s[|MARKER|..]).value) else Words(s)
  }

  /** _parse_tinydate */
  function Parse(v: Raw, tt: TimeText): Raw
    decreases v
  {
    match v
    case Words(s) => ParseWords(s, tt)
    case Items(items) => Items(seq(|items|, i requires 0 <= i < |items| => Parse(items[i], tt)))
    case Record(fields) => Record(map k | k in fields :: Parse(fields[k], tt))
    case _ => v
  }

  /** How TinyDB has written a document. */
  function Written(v: Raw, tt: TimeText): Raw
    decreases v
  {
    match v
    case Date(t) => Words("{TinyDate}:" + tt.iso(t))
    case Items(items) => Items(seq(|items|, i requires 0 <= i < |items| => Written(items[i], tt)))
    case Record(fields) => Record(map k | k in fields :: Written(fields[k], tt))
    case _ => v
  }

  /** Somewhere in the document is a text that reads as a date. */
  ghost predicate Ambiguous(v: Raw, tt: TimeText)
    decreases v
  {
    match v
    case Words(s) => ParseWords(s, tt).Date?
    case Items(items) => exists i :: 0 <= i < |items| && Ambiguous(items[i], tt)
    case Record(fields) => exists k :: k in fields && Ambiguous(fields[k], tt)
    case _ => false
  }

  /** A document is read back as it was exactly when none of its own texts reads as a date. */
  lemma {:induction false} ReadBackExactlyWhen(v: Raw, tt: TimeText)
    requires ParsesBack(tt)
    ensures Parse(Written(v, tt), tt) == v <==> !Ambiguous(v, tt)
    decreases v
  {
    match v
    case Date(t) =>
      assert (MARKER + tt.iso(t))[|MARKER|..] == tt.iso(t);
    case Items(items) =>
      var back := Parse(Written(v, tt), tt).items;
      assert |back| == |items|;
      forall i | 0 <= i < |items| ensures back[i] == items[i] <==> !Ambiguous(items[i], tt) {
        ReadBackExactlyWhen(items[i], tt);
      }
    case Record(fields) =>
      var back := Parse(Written(v, tt), tt).fields;
      assert back.Keys == fields.Keys;
      forall k | k in fields ensures back[k] == fields[k] <==> !Ambiguous(fields[k], tt) {
        ReadBackExactlyWhen(fields[k], tt);
      }
    case _ =>
  }
}
