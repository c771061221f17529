/** The canonical signing payload of an inference receipt and the receipt verifier: scripts/verify_prsm_receipt.py. */
module Payload {
  import opened Outcomes
  import opened Canonical

  // ---- Joining lines ----

  predicate OneLine(s: string) {
    '\n' !in s
  }

  predicate OneLiners(parts: seq<string>) {
    forall i :: 0 <= i < |parts| ==> OneLine(parts[i])
  }

  /** Python's `"\n".join(parts)`. */
  function Join(parts: seq<string>): string {
    if parts == [] then "" else if |parts| == 1 then parts[0] else parts[0] + "\n" + Join(parts[1..])
  }

  lemma {:induction false} SplitFirstLine(a: string, x: string, b: string, y: string)
    requires OneLine(a) && OneLine(b) && a + "\n" + x == b + "\n" + y
    ensures a == b && x == y
  {
    var l, r := a + "\n" + x, b + "\n" + y;
    assert l[|a|] == '\n' && r[|b|] == '\n';
    assert l[..|a|] == a && r[..|b|] == b;
    assert l[|a| + 1..] == x && r[|b| + 1..] == y;
  }

  /** Lists of newline-free lines are recovered from their join. */
  lemma {:induction false} JoinInjective(p: seq<string>, q: seq<string>)
    requires p != [] && q != [] && OneLiners(p) && OneLiners(q) && Join(p) == Join(q)
    ensures p == q
  {
    if |p| == 1 || |q| == 1 {
      assert OneLine(p[0]) && OneLine(q[0]);
    } else {
      SplitFirstLine(p[0], Join(p[1..]), q[0], Join(q[1..]));
      JoinInjective(p[1..], q[1..]);
      assert p == [p[0]] + p[1..] && q == [q[0]] + q[1..];
    }
  }

  lemma {:induction false} JoinConcat(p: seq<string>, q: seq<string>)
    requires p != [] && q != []
    ensures Join(p + q) == Join(p) + "\n" + Join(q)
  {
    if |p| == 1 {
      assert (p + q)[1..] == q;
    } else {
      assert (p + q)[1..] == p[1..] + q;
      JoinConcat(p[1..], q);
      assert Join(p + q) == p[0] + "\n" + (Join(p[1..]) + "\n" + Join(q));
    }
  }

  // ---- Reading lines back ----

  /** The text in front of the first newline. */
  function FirstLine(t: string): string {
    if t == "" || t[0] == '\n' then "" else [t[0]] + FirstLine(t[1..])
  }

  /** The text behind the first newline, if there is one. */
  function Behind(t: string): Option<string> {
    if t == "" then None else if t[0] == '\n' then Some(t[1..]) else Behind(t[1..])
  }

  /** The text between the `k`-th newline and the next, as any reader of the bytes finds it. */
  function Line(t: string, k: nat): Option<string>
    decreases k
  {
    if k == 0 then Some(FirstLine(t))
    else if Behind(t).None? then None else Line(Behind(t).value, k - 1)
  }

  lemma {:induction false} FirstOfTwo(a: string, x: string)
    requires OneLine(a)
    ensures FirstLine(a + "\n" + x) == a && Behind(a + "\n" + x) == Some(x)
    ensures FirstLine(a) == a && Behind(a).None?
  {
    var t := a + "\n" + x;
    if a == "" {
      assert t[1..] == x;
    } else {
      FirstOfTwo(a[1..], x);
      assert t[1..] == a[1..] + "\n" + x;
    }
  }

  /** The lines of a join are its parts, as far as these have no newline. */
  lemma {:induction false} LineOfJoin(parts: seq<string>, k: nat)
    requires parts != [] && forall j :: 0 <= j <= k && j < |parts| ==> OneLine(parts[j])
    ensures Line(Join(parts), k) == if k < |parts| then Some(parts[k]) else None
  {
    FirstOfTwo(parts[0], Join(parts[1..]));
    if k > 0 && |parts| > 1 {
      LineOfJoin(parts[1..], k - 1);
    }
  }

  // ---- Signed content ----

  const SECTIONS := 6

  /** The section tags, in the fixed order of the payload. */
  function Tag(i: nat): string
    requires i < SECTIONS
  {
    match i
    case 0 => "streamed_output:"
    case 1 => "activation_noise_trace:"
    case 2 => "topology_assignment:"
    case 3 => "partial_completion:"
    case 4 => "prompt_hash:"
    case _ => "stage_activation_chain:"
  }

  /** What a payload commits to: twelve formatted fields and, per section, its value if present. */
  datatype Content = Content(base: seq<string>, sections: seq<Option<string>>) {
    ghost predicate Valid() {
      |base| == 12 && |sections| == SECTIONS && (sections[0].Some? ==> sections[0].value == "true")
    }
    ghost predicate NewlineFree() {
      OneLiners(base) && forall i :: 0 <= i < |sections| && sections[i].Some? ==> OneLine(sections[i].value)
    }
  }

  function SectionPart(sections: seq<Option<string>>, i: nat): seq<string>
    requires i < |sections| == SECTIONS
  {
    if sections[i].Some? then [Tag(i) + sections[i].value] else []
  }

  function SectionParts(sections: seq<Option<string>>, i: nat): seq<string>
    requires |sections| == SECTIONS && i <= SECTIONS
    decreases SECTIONS - i
  {
    if i == SECTIONS then [] else SectionPart(sections, i) + SectionParts(sections, i + 1)
  }

  function Parts(c: Content): seq<string>
    requires |c.sections| == SECTIONS
  {
    c.base + SectionParts(c.sections, 0)
  }

  function PayloadOf(c: Content): string
    requires |c.sections| == SECTIONS
  {
    Join(Parts(c))
  }

  /** The section a line belongs to, read off its first three letters. */
  function Which(line: string): nat {
    if |line| < 3 then SECTIONS
    else if line[..3] == "str" then 0
    else if line[..3] == "act" then 1
    else if line[..3] == "top" then 2
    else if line[..3] == "par" then 3
    else if line[..3] == "pro" then 4
    else if line[..3] == "sta" then 5
    else SECTIONS
  }

  lemma {:induction false} TagsTell(i: nat, v: string)
    requires i < SECTIONS
    ensures Which(Tag(i) + v) == i
  {
    assert Tag(i)[..3] == ["str", "act", "top", "par", "pro", "sta"][i];
    assert (Tag(i) + v)[..3] == Tag(i)[..3];
  }

  lemma {:induction false} PartsFollowOrder(s: seq<Option<string>>, i: nat)
    requires |s| == SECTIONS && i <= SECTIONS
    ensures From(SectionParts(s, i), i)
    decreases SECTIONS - i
  {
    if i < SECTIONS {
      PartsFollowOrder(s, i + 1);
      var rest := SectionParts(s, i + 1);
      if s[i].Some? {
        TagsTell(i, s[i].value);
        assert SectionParts(s, i) == [Tag(i) + s[i].value] + rest;
      } else {
        assert SectionParts(s, i) == rest;
      }
    }
  }

  /** Every line belongs to section `i` or a later one. */
  ghost predicate From(lines: seq<string>, i: nat) {
    forall j :: 0 <= j < |lines| ==> Which(lines[j]) >= i
  }

  lemma {:induction false} SectionsInjective(s: seq<Option<string>>, t: seq<Option<string>>, i: nat)
    requires |s| == |t| == SECTIONS && i <= SECTIONS
    requires SectionParts(s, i) == SectionParts(t, i)
    ensures s[i..] == t[i..]
    decreases SECTIONS - i
  {
    if i < SECTIONS {
      SectionStep(s, t, i);
      SectionsInjective(s, t, i + 1);
      assert s[i..] == [s[i]] + s[i + 1..] && t[i..] == [t[i]] + t[i + 1..];
    }
  }

  lemma {:induction false} SectionStep(s: seq<Option<string>>, t: seq<Option<string>>, i: nat)
    requires |s| == |t| == SECTIONS && i < SECTIONS
    requires SectionParts(s, i) == SectionParts(t, i)
    ensures s[i] == t[i] && SectionParts(s, i + 1) == SectionParts(t, i + 1)
  {
    PartsFollowOrder(s, i + 1);
    PartsFollowOrder(t, i + 1);
    var p := SectionParts(s, i);
    if s[i].Some? {
      TagsTell(i, s[i].value);
      assert p[0] == Tag(i) + s[i].value && p[1..] == SectionParts(s, i + 1);
    }
    if t[i].Some? {
      TagsTell(i, t[i].value);
      assert p[0] == Tag(i) + t[i].value && p[1..] == SectionParts(t, i + 1);
    }
    if s[i].Some? && t[i].Some? {
      assert p[0][|Tag(i)|..] == s[i].value && p[0][|Tag(i)|..] == t[i].value;
    }
    assert s[i].None? ==> p == SectionParts(s, i + 1);
    assert t[i].None? ==> p == SectionParts(t, i + 1);
  }

  lemma {:induction false} TagOneLine(i: nat, v: string)
    requires i < SECTIONS && OneLine(v)
    ensures OneLine(Tag(i) + v)
  {
    assert OneLine(Tag(i));
  }

  lemma {:induction false} SectionPartsOneLine(c: Content, i: nat)
    requires c.Valid() && c.NewlineFree() && i <= SECTIONS
    ensures OneLiners(SectionParts(c.sections, i))
    decreases SECTIONS - i
  {
    if i < SECTIONS {
      SectionPartsOneLine(c, i + 1);
      if c.sections[i].Some? {
        TagOneLine(i, c.sections[i].value);
        assert SectionParts(c.sections, i) == [Tag(i) + c.sections[i].value] + SectionParts(c.sections, i + 1);
      } else {
        assert SectionParts(c.sections, i) == SectionParts(c.sections, i + 1);
      }
    }
  }

  /** The base fields are the first twelve lines. */
  lemma {:induction false} BaseLines(c: Content, i: nat)
    requires |c.base| == 12 && |c.sections| == SECTIONS && OneLiners(c.base) && i < 12
    ensures Line(PayloadOf(c), i) == Some(c.base[i])
  {
    assert forall j :: 0 <= j < 12 ==> Parts(c)[j] == c.base[j];
    LineOfJoin(Parts(c), i);
  }

  /** The section lines follow, and nothing else. */
  lemma {:induction false} LaterLines(c: Content, i: nat)
    requires c.Valid() && c.NewlineFree() && i >= 12
    ensures
      var lines := SectionParts(c.sections, 0);
      Line(PayloadOf(c), i) == if i - 12 < |lines| then Some(lines[i - 12]) else None
  {
    SectionPartsOneLine(c, 0);
    assert forall j :: 0 <= j < 12 ==> Parts(c)[j] == c.base[j];
    LineOfJoin(Parts(c), i);
  }

  lemma {:induction false} SixParts(s: seq<Option<string>>)
    requires |s| == SECTIONS
    ensures SectionParts(s, 0)
         == SectionPart(s, 0) + SectionPart(s, 1) + SectionPart(s, 2)
            + SectionPart(s, 3) + SectionPart(s, 4) + SectionPart(s, 5)
  {
    assert SectionParts(s, 6) == [];
    assert SectionParts(s, 5) == SectionPart(s, 5);
    assert SectionParts(s, 4) == SectionPart(s, 4) + SectionPart(s, 5);
    assert SectionParts(s, 3) == SectionPart(s, 3) + SectionParts(s, 4);
    assert SectionParts(s, 2) == SectionPart(s, 2) + SectionParts(s, 3);
    assert SectionParts(s, 1) == SectionPart(s, 1) + SectionParts(s, 2);
    SixTogether(SectionPart(s, 0), SectionPart(s, 1), SectionPart(s, 2),
                SectionPart(s, 3), SectionPart(s, 4), SectionPart(s, 5));
  }

  lemma {:induction false} SixTogether(
    a: seq<string>, b: seq<string>, c: seq<string>, d: seq<string>, e: seq<string>, f: seq<string>)
    ensures a + (b + (c + (d + (e + f)))) == a + b + c + d + e + f
  {
    ThreeParts(a, b, c + (d + (e + f)));
    ThreeParts(a + b, c, d + (e + f));
    ThreeParts(a + b + c, d, e + f);
    ThreeParts(a + b + c + d, e, f);
  }

  /**
   The payload is unambiguous: newline-free contents have the same payload if and only if they agree on
   all twelve fields and on the presence and value of each of the six sections.
   */
  lemma {:induction false} PayloadUnambiguous(c: Content, d: Content)
    requires c.Valid() && d.Valid() && c.NewlineFree() && d.NewlineFree()
    ensures PayloadOf(c) == PayloadOf(d) <==> c == d
  {
    if PayloadOf(c) == PayloadOf(d) {
      SectionPartsOneLine(c, 0);
      SectionPartsOneLine(d, 0);
      JoinInjective(Parts(c), Parts(d));
      var p := Parts(c);
      assert p[..12] == c.base && p[..12] == d.base;
      assert p[12..] == SectionParts(c.sections, 0) && p[12..] == SectionParts(d.sections, 0);
      SectionsInjective(c.sections, d.sections, 0);
      assert c.sections[0..] == c.sections && d.sections[0..] == d.sections;
    }
  }

  /** The newline condition is needed: every content with a newline in a field shares its payload with another one. */
  lemma {:induction false} NewlineCollides(c: Content, i: nat) returns (d: Content)
    requires c.Valid() && i < 12 && !OneLine(c.base[i])
    ensures d.Valid() && d != c && PayloadOf(d) == PayloadOf(c)
  {
    var k :| 0 <= k < |c.base[i]| && c.base[i][k] == '\n';
    var u, v := c.base[i][..k], c.base[i][k + 1..];
    assert c.base[i] == u + "\n" + v;
    if i < 11 {
      MoveBreak(u, v, c.base[i + 1]);
      d := Rewritten(c, i, u, v + "\n" + c.base[i + 1]);
    } else {
      MoveBreak(c.base[10], u, v);
      assert c.base[10] + "\n" + (u + "\n" + v) == c.base[10] + "\n" + u + "\n" + v;
      JoinTwo(c.base[10], c.base[11]);
      JoinTwo(c.base[10] + "\n" + u, v);
      d := Rewritten(c, 10, c.base[10] + "\n" + u, v);
    }
  }

  lemma {:induction false} MoveBreak(u: string, v: string, w: string)
    ensures Join([u + "\n" + v, w]) == Join([u, v + "\n" + w])
  {
    JoinTwo(u + "\n" + v, w);
    JoinTwo(u, v + "\n" + w);
    assert u + "\n" + v + "\n" + w == u + "\n" + (v + "\n" + w);
  }

  lemma {:induction false} Rewritten(c: Content, j: nat, x: string, y: string) returns (d: Content)
    requires c.Valid() && j < 11 && Join([c.base[j], c.base[j + 1]]) == Join([x, y]) && |x| != |c.base[j]|
    ensures d.Valid() && d != c && PayloadOf(d) == PayloadOf(c)
  {
    d := Content(c.base[j := x][j + 1 := y], c.sections);
    RewrittenFront(c.base, SectionParts(c.sections, 0), j, x, y);
    assert d.base[j] == x;
  }

  lemma {:induction false} RewrittenFront(base: seq<string>, rest: seq<string>, j: nat, x: string, y: string)
    requires j + 1 < |base| && Join([base[j], base[j + 1]]) == Join([x, y])
    ensures Join(base[j := x][j + 1 := y] + rest) == Join(base + rest)
  {
    ReplacePair(base + rest, j, x, y);
    assert base[j := x][j + 1 := y] + rest == (base + rest)[j := x][j + 1 := y];
  }

  lemma {:induction false} JoinTwo(a: string, b: string)
    ensures Join([a, b]) == a + "\n" + b
  {
    assert [a, b][1..] == [b];
  }

  lemma {:induction false} ReplacePair(p: seq<string>, j: nat, x: string, y: string)
    requires j + 1 < |p| && Join([p[j], p[j + 1]]) == Join([x, y])
    ensures Join(p[j := x][j + 1 := y]) == Join(p)
  {
    var pre, post := p[..j], p[j + 2..];
    var q := p[j := x][j + 1 := y];
    assert p == pre + ([p[j], p[j + 1]] + post) && q == pre + ([x, y] + post);
    assert Join([p[j], p[j + 1]] + post) == Join([x, y] + post) by {
      if post == [] {
        assert [p[j], p[j + 1]] + post == [p[j], p[j + 1]] && [x, y] + post == [x, y];
      } else {
        JoinConcat([p[j], p[j + 1]], post);
        JoinConcat([x, y], post);
      }
    }
    if pre == [] {
      assert p == [p[j], p[j + 1]] + post && q == [x, y] + post;
    } else {
      JoinConcat(pre, [p[j], p[j + 1]] + post);
      JoinConcat(pre, [x, y] + post);
    }
  }

  /** A section added behind every section present only appends to the bytes signed before it existed. */
  lemma {:induction false} AppendOnly(c: Content, k: nat, v: string)
    requires c.Valid() && k < SECTIONS && (k == 0 ==> v == "true")
    requires forall i :: k <= i < SECTIONS ==> c.sections[i].None?
    ensures PayloadOf(c.(sections := c.sections[k := Some(v)])) == PayloadOf(c) + "\n" + (Tag(k) + v)
  {
    var s' := c.sections[k := Some(v)];
    var line := Tag(k) + v;
    AppendSection(c.sections, k, v, 0);
    AppendLine(c.base, SectionParts(c.sections, 0), line);
  }

  lemma {:induction false} AppendLine(base: seq<string>, parts: seq<string>, line: string)
    requires base != []
    ensures Join(base + (parts + [line])) == Join(base + parts) + "\n" + line
  {
    assert base + (parts + [line]) == (base + parts) + [line];
    JoinConcat(base + parts, [line]);
  }

  lemma {:induction false} AppendSection(s: seq<Option<string>>, k: nat, v: string, i: nat)
    requires |s| == SECTIONS && k < SECTIONS && i <= SECTIONS
    requires forall j :: k <= j < SECTIONS ==> s[j].None?
    ensures SectionParts(s[k := Some(v)], i) == SectionParts(s, i) + (if i <= k then [Tag(k) + v] else [])
    decreases SECTIONS - i
  {
    if i < SECTIONS {
      AppendSection(s, k, v, i + 1);
      if i == k {
        assert SectionParts(s, i) == SectionParts(s, i + 1);
        NoSections(s, i);
      }
    }
  }

  lemma {:induction false} NoSections(s: seq<Option<string>>, i: nat)
    requires |s| == SECTIONS && i <= SECTIONS
    requires forall j :: i <= j < SECTIONS ==> s[j].None?
    ensures SectionParts(s, i) == []
    decreases SECTIONS - i
  {
    if i < SECTIONS {
      NoSections(s, i + 1);
    }
  }

  lemma {:induction false} Spliced(front: seq<string>, x: string, y: string)
    requires front != []
    ensures Join(front + [x + "\n" + y]) == Join(front + [x, y])
  {
    JoinConcat(front, [x + "\n" + y]);
    JoinConcat(front, [x, y]);
    JoinTwo(x, y);
  }

  function LastParts(a: Option<string>, b: Option<string>): seq<string> {
    (if a.Some? then [Tag(4) + a.value] else []) + (if b.Some? then [Tag(5) + b.value] else [])
  }

  lemma {:induction false} LastTwo(s: seq<Option<string>>)
    requires |s| == SECTIONS
    ensures SectionParts(s, 4) == LastParts(s[4], s[5])
  {
    assert SectionParts(s, 6) == [];
    assert SectionParts(s, 5) == SectionPart(s, 5) + [] == SectionPart(s, 5);
    assert SectionParts(s, 4) == SectionPart(s, 4) + SectionParts(s, 5);
  }

  /** The lines of the sections `i` to 3. */
  function FrontParts(s: seq<Option<string>>, i: nat): seq<string>
    requires |s| == SECTIONS && i <= 4
    decreases 4 - i
  {
    if i == 4 then [] else SectionPart(s, i) + FrontParts(s, i + 1)
  }

  lemma {:induction false} FrontThenLast(s: seq<Option<string>>, i: nat)
    requires |s| == SECTIONS && i <= 4
    ensures SectionParts(s, i) == FrontParts(s, i) + SectionParts(s, 4)
    decreases 4 - i
  {
    if i < 4 {
      FrontThenLast(s, i + 1);
      ThreeParts(SectionPart(s, i), FrontParts(s, i + 1), SectionParts(s, 4));
    }
  }

  lemma {:induction false} ThreeParts(a: seq<string>, b: seq<string>, c: seq<string>)
    ensures a + (b + c) == a + b + c
  {
  }

  lemma {:induction false} SameFront(s: seq<Option<string>>, t: seq<Option<string>>, i: nat)
    requires |s| == |t| == SECTIONS && i <= 4 && forall j :: 0 <= j < 4 ==> s[j] == t[j]
    ensures FrontParts(s, i) == FrontParts(t, i)
    decreases 4 - i
  {
    if i < 4 {
      SameFront(s, t, i + 1);
    }
  }

  /** A newline in the prompt hash can hide the last section: the bytes are those of a hash and a stage chain. */
  lemma {:induction false} SectionsSpliced(c: Content, u: string, v: string)
    requires |c.base| == 12 && |c.sections| == SECTIONS && c.sections[4] == Some(u) && c.sections[5] == Some(v)
    ensures
      var d := Content(c.base, c.sections[4 := Some(u + "\n" + Tag(5) + v)][5 := None]);
      d != c && PayloadOf(d) == PayloadOf(c)
  {
    var t := c.sections[4 := Some(u + "\n" + Tag(5) + v)][5 := None];
    var front := FrontParts(c.sections, 0);
    var x, y := Tag(4) + u, Tag(5) + v;
    SameFront(c.sections, t, 0);
    FrontThenLast(c.sections, 0);
    FrontThenLast(t, 0);
    LastTwo(c.sections);
    LastTwo(t);
    SpliceTag(Tag(4), u, Tag(5), v);
    assert LastParts(c.sections[4], c.sections[5]) == [x, y] && LastParts(t[4], t[5]) == [x + "\n" + y];
    SplicedParts(c.base, front, x, y, x + "\n" + y);
    assert t[5] != c.sections[5];
  }

  lemma {:induction false} SpliceTag(a: string, u: string, b: string, v: string)
    ensures a + (u + "\n" + b + v) == a + u + "\n" + (b + v)
  {
  }

  lemma {:induction false} SplicedParts(base: seq<string>, front: seq<string>, x: string, y: string, xy: string)
    requires base != [] && xy == x + "\n" + y
    ensures Join(base + (front + [xy])) == Join(base + (front + [x, y]))
  {
    Spliced(base + front, x, y);
    assert base + (front + [xy]) == base + front + [xy] && base + (front + [x, y]) == base + front + [x, y];
  }

  // ---- Which contents share their payload with another one ----

  function Newlines(s: string): nat {
    if s == "" then 0 else Newlines(s[..|s| - 1]) + if s[|s| - 1] == '\n' then 1 else 0
  }

  lemma {:induction false} NewlinesConcat(a: string, b: string)
    ensures Newlines(a + b) == Newlines(a) + Newlines(b)
    decreases |b|
  {
    if b == "" {
      assert a + b == a;
    } else {
      assert (a + b)[..|a + b| - 1] == a + b[..|b| - 1];
      NewlinesConcat(a, b[..|b| - 1]);
    }
  }

  lemma {:induction false} NoNewlines(s: string)
    ensures Newlines(s) == 0 <==> OneLine(s)
  {
    if s != "" {
      NoNewlines(s[..|s| - 1]);
      assert s == s[..|s| - 1] + [s[|s| - 1]];
    }
  }

  function AllNewlines(parts: seq<string>): nat {
    if parts == [] then 0 else Newlines(parts[0]) + AllNewlines(parts[1..])
  }

  lemma {:induction false} NoneAtAll(parts: seq<string>)
    ensures AllNewlines(parts) == 0 <==> OneLiners(parts)
  {
    if parts != [] {
      NoneAtAll(parts[1..]);
      NoNewlines(parts[0]);
      assert forall i :: 0 < i < |parts| ==> parts[i] == parts[1..][i - 1];
    }
  }

  /** A join has one newline between any two parts, and those inside the parts. */
  lemma {:induction false} JoinNewlines(parts: seq<string>)
    requires parts != []
    ensures Newlines(Join(parts)) == AllNewlines(parts) + |parts| - 1
  {
    if |parts| == 1 {
      assert AllNewlines(parts[1..]) == 0;
    } else {
      var rest := Join(parts[1..]);
      JoinNewlines(parts[1..]);
      NewlinesConcat(parts[0] + "\n", rest);
      NewlinesConcat(parts[0], "\n");
      assert "\n"[..0] == "";
    }
  }

  ghost predicate NoSectionsAt(sections: seq<Option<string>>) {
    forall i :: 0 <= i < |sections| ==> sections[i].None?
  }

  /** All sections moved, line by line, into the last base field. */
  function Folded(c: Content): Content
    requires |c.base| == 12 && |c.sections| == SECTIONS
  {
    Content(c.base[11 := Join([c.base[11]] + SectionParts(c.sections, 0))], seq(SECTIONS, _ => None))
  }

  lemma {:induction false} FoldedJoin(base: seq<string>, parts: seq<string>)
    requires |base| == 12
    ensures Join(base[11 := Join([base[11]] + parts)]) == Join(base + parts)
  {
    var front, last := base[..11], [base[11]] + parts;
    assert base[11 := Join(last)] == front + [Join(last)] && base + parts == front + last;
    JoinConcat(front, [Join(last)]);
    JoinConcat(front, last);
  }

  /** Any content with a section shares its payload with one whose last base field swallowed the sections. */
  lemma {:induction false} SectionsFold(c: Content)
    requires c.Valid() && !NoSectionsAt(c.sections)
    ensures Folded(c).Valid() && Folded(c) != c && PayloadOf(Folded(c)) == PayloadOf(c)
  {
    var d := Folded(c);
    FoldedJoin(c.base, SectionParts(c.sections, 0));
    NoSections(d.sections, 0);
    assert d.base + [] == d.base;
    var i :| 0 <= i < |c.sections| && c.sections[i].Some?;
    assert d.sections[i].None?;
  }

  lemma {:induction false} TwelveLines(c: Content, d: Content)
    requires c.Valid() && d.Valid() && c.NewlineFree() && NoSectionsAt(c.sections) && PayloadOf(d) == PayloadOf(c)
    ensures d == c
  {
    NoSections(c.sections, 0);
    assert Parts(c) == c.base + [] == c.base;
    NoneAtAll(c.base);
    JoinNewlines(c.base);
    JoinNewlines(Parts(d));
    NoneAtAll(Parts(d));
    assert |Parts(d)| == 12 && SectionParts(d.sections, 0) == [];
    SectionsInjective(d.sections, c.sections, 0);
    assert d.sections[0..] == d.sections && c.sections[0..] == c.sections;
    assert Parts(d) == d.base + [] == d.base;
    JoinInjective(d.base, c.base);
  }

  /**
   Without the newline condition: the payload pins a content down among all contents exactly when it has no section
   and no newline in a field. Every other one shares its payload with a different content.
   */
  lemma {:induction false} PinnedExactly(c: Content)
    requires c.Valid()
    ensures (forall d: Content :: d.Valid() && PayloadOf(d) == PayloadOf(c) ==> d == c) <==>
            OneLiners(c.base) && NoSectionsAt(c.sections)
  {
    if OneLiners(c.base) && NoSectionsAt(c.sections) {
      forall d: Content | d.Valid() && PayloadOf(d) == PayloadOf(c) ensures d == c {
        TwelveLines(c, d);
      }
    } else if !NoSectionsAt(c.sections) {
      SectionsFold(c);
    } else {
      var i :| 0 <= i < 12 && !OneLine(c.base[i]);
      var d := NewlineCollides(c, i);
    }
  }
}
