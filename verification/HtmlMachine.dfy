/** What the HTML minifier computes, move by move.

    A move looks at most nine bytes ahead. If the buffer ends within that reach, the undecided
    bytes become the carry. */
module HtmlMachine {
  import opened Bytes

  datatype Mode =
    | Text | Skip | Abort
    | Tag | TagName | TagAtt | TagNameEnd
    | TagBang | Comment | CommentIe | CommentSkip | Cdata

  /** `pre` is the byte that decides whether a space of the text is dropped; it is zero in the
      modes that do not hold on to it. `last`: the byte written last in this buffer; `name`: the
      tag name collected so far, or remembered while its block is skipped; `col`: the text
      collected after `</` inside such a block. */
  datatype Html = Html(mode: Mode, pre: byte, last: Option<byte>, name: seq<byte>, col: seq<byte>, carry: seq<byte>)

  /** A move consumes `used` bytes and writes `out`. */
  datatype Move = Move(st: Html, used: nat, out: seq<byte>)

  datatype Step = Step(st: Html, out: seq<byte>)

  const START := Html(Text, '\0', None, [], [], [])

  predicate SkipName(name: seq<byte>): (skip: bool)
    ensures skip ==> name != []
  {
    SameNoCase(name, "pre") || SameNoCase(name, "script") || SameNoCase(name, "style")
  }

  /** `<!` is only decided with a third byte in sight, a comment only with its opening in sight. */
  predicate Ready(s: Html, w: seq<byte>) {
    && (w != [] ==> s.carry == [])
    && (s.mode == TagBang && s.carry == [] ==> |w| >= 3 && w[0] == '<' && w[1] == '!')
    && (s.mode == Comment && s.carry == [] ==> "<!--" <= w)
  }

  /** The modes that keep `pre` for the text after them. */
  predicate HoldsPre(m: Mode) {
    m == Text || m == TagBang || m == Comment || m == CommentIe || m == CommentSkip
  }

  function To(s: Html, m: Mode): Html {
    s.(mode := m, pre := if HoldsPre(m) then s.pre else '\0')
  }

  /** Copy the next `n` bytes and go on in mode `m`; back in the text, `pre` is the last of them. */
  function Copy(s: Html, w: seq<byte>, n: nat, m: Mode): Move
    requires 0 < n <= |w|
  {
    Move(s.(mode := m, last := Some(w[n - 1]), pre := if m == Text then w[n - 1] else '\0'), n, w[..n])
  }

  function Drop(s: Html, n: nat, m: Mode): Move {
    Move(To(s, m), n, [])
  }

  function Keep(s: Html, w: seq<byte>): Move {
    Move(s.(carry := w), |w|, [])
  }

  /** The end of a turn in the text: `pre` follows the output. */
  function Sync(s: Html): Html {
    s.(pre := s.last.GetOr(s.pre))
  }

  /** Copy inside a conditional comment, which leaves `pre` alone. */
  function CopyIe(s: Html, w: seq<byte>, n: nat, m: Mode): Move
    requires 0 < n <= |w|
  {
    Move(s.(mode := m, last := Some(w[n - 1])), n, w[..n])
  }

  /** The whole rest is, up to case, a beginning of `c`. */
  predicate Begins(w: seq<byte>, c: seq<byte>) {
    |w| < |c| && SameNoCase(c[..|w|], w)
  }

  function Next(s: Html, w: seq<byte>): Move
    requires w != [] && Ready(s, w)
  {
    match s.mode
    case Text => NextText(s, w)
    case Skip =>
      if w[0] != '<' then Copy(s, w, 1, Skip)
      else if |w| == 1 then Keep(s, w)
      else if w[1] == '/' then Copy(s, w, 1, Tag)
      else Copy(s, w, 2, Skip)
    case Abort => Copy(s, w, 1, Abort)
    case Tag =>
      if w[0] == ' ' then Drop(s, 1, Tag)
      else if w[0] == '/' then Copy(s, w, 1, TagNameEnd)
      else Move(s.(mode := TagName, name := [], col := []), 0, [])
    case TagName => NextTagName(s, w)
    case TagAtt => NextTagAtt(s, w)
    case TagNameEnd => NextTagNameEnd(s, w)
    case TagBang => NextTagBang(s, w)
    case Comment => NextComment(s, w)
    case CommentIe =>
      if w[0] != ']' then CopyIe(s, w, 1, CommentIe)
      else if |w| >= 4 then CopyIe(s, w, 4, if w[..4] == "]-->" then Text else CommentIe)
      else if Begins(w, "]-->") then Keep(s, w)
      else Drop(s, 1, CommentIe)
    case CommentSkip =>
      if w[0] != '-' then Drop(s, 1, CommentSkip)
      else if |w| >= 3 then Drop(s, 3, if w[..3] == "-->" then Text else CommentSkip)
      else if Begins(w, "-->") then Keep(s, w)
      else Drop(s, 1, CommentSkip)
    case Cdata =>
      if w[0] != ']' then Copy(s, w, 1, Cdata)
      else if |w| >= 3 then Copy(s, w, 3, if w[..3] == "]]>" then Text else Cdata)
      else if Begins(w, "]]>") then Keep(s, w)
      else Copy(s, w, 1, Cdata)
  }

  function NextText(s: Html, w: seq<byte>): Move
    requires w != []
  {
    if w[0] == '\n' || w[0] == '\r' || w[0] == '\t' || (w[0] == ' ' && s.pre == ' ') then
      Drop(Sync(s), 1, Text)
    else if w[0] != '<' then Copy(s, w, 1, Text)
    else if |w| == 1 then Keep(Sync(s), w)
    else if w[1] != '!' then Copy(s, w, 1, Tag)
    else if |w| == 2 then Keep(Sync(s), w)
    else Move(Sync(s).(mode := TagBang), 0, [])
  }

  function NextTagName(s: Html, w: seq<byte>): Move
    requires w != []
  {
    if w[0] == '>' then
      if SkipName(s.name) then Copy(s, w, 1, Skip) else Copy(s.(name := []), w, 1, Text)
    else if w[0] == ' ' || w[0] == '/' then
      Copy(if SkipName(s.name) then s else s.(name := []), w, 1, TagAtt)
    else Copy(s.(name := s.name + [w[0]]), w, 1, TagName)
  }

  function NextTagAtt(s: Html, w: seq<byte>): Move
    requires w != []
  {
    if w[0] == ' ' && s.last == Some(' ') then Drop(s, 1, TagAtt)
    else if w[0] == '>' then Copy(s, w, 1, if s.name != [] then Skip else Text)
    else if w[0] != '/' then Copy(s, w, 1, TagAtt)
    else if |w| == 1 then Keep(s, w)
    else if w[1] == '>' then Copy(s.(name := []), w, 1, TagAtt)
    else Copy(s, w, 2, TagAtt)
  }

  /** A skipped block is left when the remembered name begins the collected text, or at `</>`. */
  function NextTagNameEnd(s: Html, w: seq<byte>): Move
    requires w != []
  {
    if w[0] == ' ' then Drop(s, 1, TagNameEnd)
    else if w[0] != '>' then
      Copy(if s.name != [] then s.(col := s.col + [w[0]]) else s, w, 1, TagNameEnd)
    else if s.col == [] then Copy(s, w, 1, Text)
    else if s.name <= s.col then Copy(s.(name := [], col := []), w, 1, Text)
    else Copy(s.(col := []), w, 1, Skip)
  }

  function NextTagBang(s: Html, w: seq<byte>): Move
    requires |w| >= 3
  {
    if w[2] == '-' then
      if |w| == 3 then Keep(s, w)
      else if w[3] == '-' then Move(s.(mode := Comment), 0, [])
      else Copy(s, w, 3, Tag)
    else if w[2] == '[' then
      if |w| >= 9 then Copy(s, w, 9, if w[..9] == "<![CDATA[" then Cdata else Text)
      else if Begins(w, "<![CDATA[") then Keep(s, w)
      else Move(To(s, Abort), 0, [])
    else Copy(s, w, 2, Tag)
  }

  function NextComment(s: Html, w: seq<byte>): Move
    requires |w| >= 4
  {
    if |w| == 4 then Keep(s, w)
    else if w[4] != '[' then Drop(s, 4, CommentSkip)
    else if |w| >= 7 then
      if w[..7] == "<!--[if" then Move(s.(mode := CommentIe), 0, []) else Drop(s, 4, CommentSkip)
    else if Begins(w, "<!--[if") then Keep(s, w)
    else Drop(s, 4, CommentSkip)
  }

  /** Every move consumes a byte or lowers the rank. */
  function Rank(m: Mode): nat {
    match m
    case Text => 3
    case TagBang => 2
    case Comment => 1
    case Tag => 1
    case _ => 0
  }

  lemma {:induction false} NextProgress(s: Html, w: seq<byte>)
    requires w != [] && Ready(s, w)
    ensures var m := Next(s, w);
            && m.used <= |w| && (m.used > 0 || Rank(m.st.mode) < Rank(s.mode))
            && Ready(m.st, w[m.used..])
  {
    hide Begins, SkipName;
  }

  /** The machine over the rest of one buffer. */
  function Run(s: Html, w: seq<byte>): Step
    requires Ready(s, w)
    decreases |w|, Rank(s.mode)
  {
    if w == [] then Step(s, [])
    else
      var m := Next(s, w);
      NextProgress(s, w);
      After(m.out, Run(m.st, w[m.used..]))
  }

  function After(out: seq<byte>, t: Step): Step {
    t.(out := out + t.out)
  }

  /** One move. */
  lemma {:induction false} RunMove(s: Html, w: seq<byte>)
    requires w != [] && Ready(s, w)
    ensures var m := Next(s, w);
            && m.used <= |w| && Ready(m.st, w[m.used..])
            && Run(s, w) == After(m.out, Run(m.st, w[m.used..]))
  {
    NextProgress(s, w);
  }

  lemma {:induction false} AfterAfter(a: seq<byte>, b: seq<byte>, t: Step)
    ensures After(a, After(b, t)) == After(a + b, t)
  {
  }

  /** Names shorter than the caches: `CTX_CACHE_BUFLEN` is never reached. */
  ghost predicate Fits(s: Html, w: seq<byte>)
    requires Ready(s, w)
    decreases |w|, Rank(s.mode)
  {
    && |s.name| < 64 && |s.col| < 64
    && (w != [] ==>
          var m := Next(s, w);
          NextProgress(s, w);
          Fits(m.st, w[m.used..]))
  }

  lemma {:induction false} FitsNext(s: Html, w: seq<byte>)
    requires Ready(s, w) && Fits(s, w) && w != []
    ensures var m := Next(s, w);
            && m.used <= |w| && Ready(m.st, w[m.used..]) && Fits(m.st, w[m.used..])
            && |m.st.name| < 64 && |m.st.col| < 64
  {
    NextProgress(s, w);
  }

  // ---------- what every buffer ends with ----------

  /** The modes and carries that a buffer can end with. */
  predicate CarryTable(m: Mode, c: seq<byte>) {
    match m
    case Text => c == "" || c == "<" || c == "<!"
    case Skip => c == "" || c == "<"
    case TagAtt => c == "" || c == "/"
    case TagBang => c == "<!-" || (|c| >= 3 && Begins(c, "<![CDATA["))
    case Comment => c == "<!--" || (|c| >= 5 && c[..4] == "<!--" && Begins(c, "<!--[if"))
    case CommentIe => Begins(c, "]-->")
    case CommentSkip => Begins(c, "-->")
    case Cdata => Begins(c, "]]>")
    case _ => c == ""
  }

  /** Inside a buffer: nothing is carried, and a name is only remembered if its block is skipped,
      and while it is. */
  predicate Names(s: Html) {
    && (s.mode == TagName || s.name == [] || SkipName(s.name))
    && (s.mode == Skip ==> s.name != [])
    && (s.col != [] ==> s.mode == TagNameEnd && s.name != [])
    && (HoldsPre(s.mode) || s.pre == '\0')
  }

  ghost predicate Reachable(s: Html, w: seq<byte>) {
    Names(s) && Ready(s, w) && (w == [] ==> CarryTable(s.mode, s.carry))
  }

  lemma {:induction false} NextNamesTag(s: Html, w: seq<byte>)
    requires w != [] && Names(s) && (s.mode == TagName || s.mode == TagAtt || s.mode == TagNameEnd)
    requires Ready(s, w)
    ensures Names(Next(s, w).st)
  {
    hide Begins, SkipName, NextText, NextTagBang, NextComment;
  }

  lemma {:induction false} NextNamesElse(s: Html, w: seq<byte>)
    requires w != [] && Names(s) && s.mode != TagName && s.mode != TagAtt && s.mode != TagNameEnd
    requires Ready(s, w)
    ensures Names(Next(s, w).st)
  {
    hide Begins, SkipName, NextTagName, NextTagAtt, NextTagNameEnd;
  }

  lemma {:induction false} NextNames(s: Html, w: seq<byte>)
    requires w != [] && Reachable(s, w)
    ensures Names(Next(s, w).st)
  {
    hide Next, Names, CarryTable;
    if s.mode == TagName || s.mode == TagAtt || s.mode == TagNameEnd {
      NextNamesTag(s, w);
    } else {
      NextNamesElse(s, w);
    }
  }

  /** Only the modes that look ahead carry anything, and what they carry is their undecided start. */
  lemma {:induction false} NextCarries(s: Html, w: seq<byte>)
    requires w != [] && Reachable(s, w)
    ensures var m := Next(s, w);
            m.used == |w| ==> CarryTable(m.st.mode, m.st.carry)
  {
    hide SkipName;
    if s.mode == TagBang && |w| == 3 && w[2] == '-' {
      assert w == "<!-";
    }
  }

  lemma {:induction false} NextReachable(s: Html, w: seq<byte>)
    requires w != [] && Reachable(s, w)
    ensures var m := Next(s, w); m.used <= |w| && Reachable(m.st, w[m.used..])
  {
    hide Next, Names, CarryTable;
    NextProgress(s, w);
    NextNames(s, w);
    NextCarries(s, w);
  }

  lemma {:induction false} RunReachable(s: Html, w: seq<byte>)
    requires Reachable(s, w)
    ensures var t := Run(s, w).st; Names(t) && CarryTable(t.mode, t.carry)
    decreases |w|, Rank(s.mode)
  {
    if w != [] {
      var m := Next(s, w);
      NextProgress(s, w);
      NextReachable(s, w);
      RunReachable(m.st, w[m.used..]);
    }
  }
}
