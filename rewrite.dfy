/** Rewriting of pipeline references inside a pipeline definition's text.

    A pipeline text is modelled as a sequence of segments: plain text, or a template
    reference `{{IngestPipeline 'name'}}` (standard style) or `{<IngestPipeline 'name'>}`
    (beats style) naming another pipeline of the package. A substitution replaces every
    reference to its `source` made with its `templateFunction`, delimiters included, by
    the plain text of its `target`. */
module IngestPipelineRewrite {

  datatype Style = Standard | Beats

  datatype Segment =
    | Text(text: string)
    | Ref(style: Style, templateFunction: string, name: string)

  datatype Substitution = Substitution(source: string, target: string, templateFunction: string)

  /** `seg` is a reference that `sub` rewrites. */
  predicate Matches(seg: Segment, sub: Substitution)
  {
    seg.Ref? && seg.templateFunction == sub.templateFunction && seg.name == sub.source
  }

  /** No reference of `doc` is one that a substitution of `subs` rewrites. */
  predicate NoMatchingReference(doc: seq<Segment>, subs: seq<Substitution>)
  {
    forall i, j :: 0 <= i < |doc| && 0 <= j < |subs| ==> !Matches(doc[i], subs[j])
  }

  function SubstituteSegment(seg: Segment, sub: Substitution): Segment
  {
    if Matches(seg, sub) then Text(sub.target) else seg
  }

  /** One substitution applied to every segment of the text. */
  function ApplySubstitution(doc: seq<Segment>, sub: Substitution): (r: seq<Segment>)
    ensures |r| == |doc|
    ensures forall i :: 0 <= i < |doc| ==>
      r[i] == if Matches(doc[i], sub) then Text(sub.target) else doc[i]
  {
    if doc == [] then [] else [SubstituteSegment(doc[0], sub)] + ApplySubstitution(doc[1..], sub)
  }

  /** The substitutions applied one after another, in list order. Each segment ends up
      as what the first-match definition `Resolve` makes of it, on its own. */
  function RewriteIngestPipeline(doc: seq<Segment>, substitutions: seq<Substitution>): (r: seq<Segment>)
    ensures |r| == |doc|
    ensures forall i :: 0 <= i < |doc| ==> r[i] == Resolve(doc[i], substitutions)
    decreases |substitutions|
  {
    if substitutions == [] then doc
    else
      ResolveText(substitutions[1..]);
      RewriteIngestPipeline(ApplySubstitution(doc, substitutions[0]), substitutions[1..])
  }

  /** Reference definition: what one segment becomes under the whole list, namely the
      target of the first substitution that matches it, or itself if none does. */
  function Resolve(seg: Segment, subs: seq<Substitution>): Segment
  {
    if subs == [] then seg
    else if Matches(seg, subs[0]) then Text(subs[0].target)
    else Resolve(seg, subs[1..])
  }

  /** Resolve picks the first matching substitution. */
  lemma {:induction false} ResolveFirstMatch(seg: Segment, subs: seq<Substitution>, j: nat)
    requires j < |subs| && Matches(seg, subs[j])
    requires forall k :: 0 <= k < j ==> !Matches(seg, subs[k])
    ensures Resolve(seg, subs) == Text(subs[j].target)
  {
    if j > 0 {
      ResolveFirstMatch(seg, subs[1..], j - 1);
    }
  }

  /** A segment that no substitution matches resolves to itself. */
  lemma {:induction false} ResolveNoMatch(seg: Segment, subs: seq<Substitution>)
    requires forall k :: 0 <= k < |subs| ==> !Matches(seg, subs[k])
    ensures Resolve(seg, subs) == seg
  {
    if subs != [] {
      ResolveNoMatch(seg, subs[1..]);
    }
  }

  /** Plain text is never rewritten. */
  lemma {:induction false} ResolveText(subs: seq<Substitution>)
    ensures forall t :: Resolve(Text(t), subs) == Text(t)
  {
    if subs != [] {
      ResolveText(subs[1..]);
    }
  }

  /** A text with no reference to any substitution comes back exactly as it was. */
  lemma NoReferenceUnchanged(doc: seq<Segment>, subs: seq<Substitution>)
    requires NoMatchingReference(doc, subs)
    ensures RewriteIngestPipeline(doc, subs) == doc
  {
    forall i | 0 <= i < |doc| ensures RewriteIngestPipeline(doc, subs)[i] == doc[i] {
      ResolveNoMatch(doc[i], subs);
    }
  }

  /** Plain text and references no substitution matches are left in place; each matched
      reference becomes the target of the first substitution for it. */
  lemma RewriteScoped(doc: seq<Segment>, subs: seq<Substitution>, i: nat)
    requires i < |doc|
    ensures |RewriteIngestPipeline(doc, subs)| == |doc|
    ensures (forall k :: 0 <= k < |subs| ==> !Matches(doc[i], subs[k])) ==>
      RewriteIngestPipeline(doc, subs)[i] == doc[i]
    ensures forall j :: (0 <= j < |subs| && Matches(doc[i], subs[j]) &&
                         (forall k :: 0 <= k < j ==> !Matches(doc[i], subs[k]))) ==>
      RewriteIngestPipeline(doc, subs)[i] == Text(subs[j].target)
  {
    if forall k :: 0 <= k < |subs| ==> !Matches(doc[i], subs[k]) {
      ResolveNoMatch(doc[i], subs);
    }
    forall j | 0 <= j < |subs| && Matches(doc[i], subs[j]) &&
      (forall k :: 0 <= k < j ==> !Matches(doc[i], subs[k]))
      ensures RewriteIngestPipeline(doc, subs)[i] == Text(subs[j].target)
    {
      ResolveFirstMatch(doc[i], subs, j);
    }
  }

  /** Resolve never returns a reference that a substitution of the list still matches. */
  lemma {:induction false} ResolveComplete(seg: Segment, subs: seq<Substitution>, j: nat)
    requires j < |subs|
    ensures !Matches(Resolve(seg, subs), subs[j])
  {
    if !Matches(seg, subs[0]) && j > 0 {
      ResolveComplete(seg, subs[1..], j - 1);
    } else if !Matches(seg, subs[0]) {
      if |subs| > 1 && !Resolve(seg, subs[1..]).Text? {
        ResolveIsSelfOrText(seg, subs[1..]);
      }
    }
  }

  /** A resolved segment is either the segment itself or plain text. */
  lemma {:induction false} ResolveIsSelfOrText(seg: Segment, subs: seq<Substitution>)
    ensures Resolve(seg, subs) == seg || Resolve(seg, subs).Text?
  {
    if subs != [] && !Matches(seg, subs[0]) {
      ResolveIsSelfOrText(seg, subs[1..]);
    }
  }

  /** After rewriting, no reference any substitution of the list matches is left. */
  lemma RewriteResolvesAll(doc: seq<Segment>, subs: seq<Substitution>)
    ensures NoMatchingReference(RewriteIngestPipeline(doc, subs), subs)
  {
    var r := RewriteIngestPipeline(doc, subs);
    forall i, j | 0 <= i < |r| && 0 <= j < |subs| ensures !Matches(r[i], subs[j]) {
      ResolveComplete(doc[i], subs, j);
    }
  }

  /** Rewriting twice with the same list is rewriting once. */
  lemma RewriteIdempotent(doc: seq<Segment>, subs: seq<Substitution>)
    ensures RewriteIngestPipeline(RewriteIngestPipeline(doc, subs), subs) == RewriteIngestPipeline(doc, subs)
  {
    RewriteResolvesAll(doc, subs);
    NoReferenceUnchanged(RewriteIngestPipeline(doc, subs), subs);
  }

  /** The rewrite is a left fold: one list after another is their concatenation. */
  lemma {:induction false} RewriteFold(doc: seq<Segment>, subs1: seq<Substitution>, subs2: seq<Substitution>)
    ensures RewriteIngestPipeline(doc, subs1 + subs2)
         == RewriteIngestPipeline(RewriteIngestPipeline(doc, subs1), subs2)
    decreases |subs1|
  {
    if subs1 == [] {
      assert subs1 + subs2 == subs2;
    } else {
      assert (subs1 + subs2)[0] == subs1[0];
      assert (subs1 + subs2)[1..] == subs1[1..] + subs2;
      RewriteFold(ApplySubstitution(doc, subs1[0]), subs1[1..], subs2);
    }
  }

  /** Substitutions for different references can be listed in either order. */
  lemma RewriteSwapDistinct(doc: seq<Segment>, s: Substitution, t: Substitution)
    requires s.templateFunction != t.templateFunction || s.source != t.source
    ensures RewriteIngestPipeline(doc, [s, t]) == RewriteIngestPipeline(doc, [t, s])
  {
    forall i | 0 <= i < |doc|
      ensures Resolve(doc[i], [s, t]) == Resolve(doc[i], [t, s])
    {
      assert [s, t][1..] == [t] && [t, s][1..] == [s];
    }
  }

  /** Two texts that differ at most in the delimiter style of their references. */
  predicate SameSegmentUpToStyle(a: Segment, b: Segment)
  {
    match a
    case Text(_) => a == b
    case Ref(_, f, n) => b.Ref? && b.templateFunction == f && b.name == n
  }

  predicate SameUpToStyle(a: seq<Segment>, b: seq<Segment>)
  {
    |a| == |b| && forall i :: 0 <= i < |a| ==> SameSegmentUpToStyle(a[i], b[i])
  }

  /** Every reference of `doc` is rewritten by some substitution of the list. */
  predicate AllReferencesCovered(doc: seq<Segment>, subs: seq<Substitution>)
  {
    forall i :: 0 <= i < |doc| && doc[i].Ref? ==> exists j :: 0 <= j < |subs| && Matches(doc[i], subs[j])
  }

  lemma {:induction false} ResolveUpToStyle(a: Segment, b: Segment, subs: seq<Substitution>)
    requires SameSegmentUpToStyle(a, b)
    ensures SameSegmentUpToStyle(Resolve(a, subs), Resolve(b, subs))
    ensures (exists j :: 0 <= j < |subs| && Matches(a, subs[j])) ==> Resolve(a, subs) == Resolve(b, subs)
  {
    if subs != [] {
      assert Matches(a, subs[0]) == Matches(b, subs[0]);
      if !Matches(a, subs[0]) {
        ResolveUpToStyle(a, b, subs[1..]);
        if exists j :: 0 <= j < |subs| && Matches(a, subs[j]) {
          var j :| 0 <= j < |subs| && Matches(a, subs[j]);
          assert Matches(a, subs[1..][j - 1]);
        }
      }
    }
  }

  /** Standard-style and beats-style spellings of the same pipeline rewrite alike, and to
      the identical text once every reference in them is one the list rewrites. */
  lemma StyleIndependent(a: seq<Segment>, b: seq<Segment>, subs: seq<Substitution>)
    requires SameUpToStyle(a, b)
    ensures SameUpToStyle(RewriteIngestPipeline(a, subs), RewriteIngestPipeline(b, subs))
    ensures AllReferencesCovered(a, subs) ==> RewriteIngestPipeline(a, subs) == RewriteIngestPipeline(b, subs)
  {
    forall i | 0 <= i < |a|
      ensures SameSegmentUpToStyle(Resolve(a[i], subs), Resolve(b[i], subs))
      ensures AllReferencesCovered(a, subs) ==> Resolve(a[i], subs) == Resolve(b[i], subs)
    {
      ResolveUpToStyle(a[i], b[i], subs);
    }
  }

  /** The text of a segment: a reference is written with its style's delimiters. */
  function RenderSegment(seg: Segment): string
  {
    match seg
    case Text(t) => t
    case Ref(Standard, f, n) => "{{" + f + " '" + n + "'}}"
    case Ref(Beats, f, n) => "{<" + f + " '" + n + "'>}"
  }

  /** The pipeline text the segments spell out. */
  function Render(doc: seq<Segment>): (r: string)
    ensures forall i :: 0 <= i < |doc| ==> Occurs(RenderSegment(doc[i]), r)
  {
    if doc == [] then ""
    else
      OccursAfter(RenderSegment(doc[0]), Render(doc[1..]));
      RenderSegment(doc[0]) + Render(doc[1..])
  }

  /** `pattern` occurs somewhere inside `t`. */
  predicate Occurs(pattern: string, t: string)
  {
    exists i, j :: 0 <= i <= j <= |t| && t[i..j] == pattern
  }

  /** A text occurs at the head of itself followed by anything, and whatever occurs in
      the tail occurs in the whole. */
  lemma OccursAfter(a: string, b: string)
    ensures Occurs(a, a + b)
    ensures forall p :: Occurs(p, b) ==> Occurs(p, a + b)
  {
    assert (a + b)[0..|a|] == a;
    forall p | Occurs(p, b) ensures Occurs(p, a + b) {
      var i, j :| 0 <= i <= j <= |b| && b[i..j] == p;
      assert (a + b)[|a| + i..|a| + j] == p;
    }
  }

  /** Plain text `t` holds the written form of a reference `sub` would rewrite. Segments
      keep such text apart from references, so the rewrite never looks inside it. */
  predicate HidesReference(t: string, sub: Substitution)
  {
    Occurs(RenderSegment(Ref(Standard, sub.templateFunction, sub.source)), t) ||
    Occurs(RenderSegment(Ref(Beats, sub.templateFunction, sub.source)), t)
  }

  lemma {:induction false} RenderConcat(a: seq<Segment>, b: seq<Segment>)
    ensures Render(a + b) == Render(a) + Render(b)
  {
    if a == [] {
      assert a + b == b;
    } else {
      assert (a + b)[0] == a[0];
      assert (a + b)[1..] == a[1..] + b;
      RenderConcat(a[1..], b);
      calc {
        Render(a + b);
        RenderSegment(a[0]) + Render(a[1..] + b);
        RenderSegment(a[0]) + (Render(a[1..]) + Render(b));
        Render(a) + Render(b);
      }
    }
  }

  /** Rewriting a text that holds a single reference to `source`, with no written form
      of such a reference in the text around it, writes `target` in the place of the
      whole reference construct and keeps the text around it. */
  lemma RewriteSingleReference(before: string, style: Style, after: string, sub: Substitution)
    requires !HidesReference(before, sub) && !HidesReference(after, sub)
    ensures Render(RewriteIngestPipeline([Text(before), Ref(style, sub.templateFunction, sub.source), Text(after)], [sub]))
         == before + sub.target + after
  {
    var doc := [Text(before), Ref(style, sub.templateFunction, sub.source), Text(after)];
    var r := RewriteIngestPipeline(doc, [sub]);
    assert r == [Text(before), Text(sub.target), Text(after)];
    RenderTexts(before, sub.target, after);
  }

  /** The text of three plain text segments. */
  lemma RenderTexts(a: string, b: string, c: string)
    ensures Render([Text(a), Text(b), Text(c)]) == a + b + c
  {
    var d := [Text(a), Text(b), Text(c)];
    assert d[1..] == [Text(b), Text(c)] && d[1..][1..] == [Text(c)] && d[1..][1..][1..] == [];
    assert Render([Text(c)]) == c;
    assert Render([Text(b), Text(c)]) == b + c;
  }

  /** The substitution list used for both fixture formats. */
  function FixtureSubstitutions(): seq<Substitution>
  {
    [ Substitution("pipeline-json", "new-pipeline-json", "IngestPipeline"),
      Substitution("pipeline-plaintext", "new-pipeline-plaintext", "IngestPipeline") ]
  }

  /** A pipeline with a reference to each of the two fixture pipelines, written in `style`. */
  function FixtureDocument(style: Style): seq<Segment>
  {
    [ Text("- pipeline: "),
      Ref(style, "IngestPipeline", "pipeline-json"),
      Text("\n- pipeline: "),
      Ref(style, "IngestPipeline", "pipeline-plaintext") ]
  }

  /** Text that reaches a reference renders differently in the two styles: the
      reference opens with `{{` in the one and `{<` in the other. */
  lemma RenderDiffersByStyle(t: string, f: string, n: string, rest1: seq<Segment>, rest2: seq<Segment>)
    ensures Render([Text(t), Ref(Standard, f, n)] + rest1) != Render([Text(t), Ref(Beats, f, n)] + rest2)
  {
    RenderTwoHead(Text(t), Ref(Standard, f, n), rest1);
    RenderTwoHead(Text(t), Ref(Beats, f, n), rest2);
    OpeningDiffers(t, f, n, Render(rest1), Render(rest2));
  }

  /** After the same text, the two styles' references differ in their second character. */
  lemma OpeningDiffers(t: string, f: string, n: string, tail1: string, tail2: string)
    ensures t + (RenderSegment(Ref(Standard, f, n)) + tail1) != t + (RenderSegment(Ref(Beats, f, n)) + tail2)
  {
    var x, y := t + (RenderSegment(Ref(Standard, f, n)) + tail1), t + (RenderSegment(Ref(Beats, f, n)) + tail2);
    assert x[|t| + 1] == '{' && y[|t| + 1] == '<';
  }

  /** The text of a document that opens with two given segments. */
  lemma RenderTwoHead(x: Segment, y: Segment, rest: seq<Segment>)
    ensures Render([x, y] + rest) == RenderSegment(x) + (RenderSegment(y) + Render(rest))
  {
    var d := [x, y] + rest;
    assert d[0] == x && d[1..][0] == y && d[1..][1..] == rest;
  }

  /** The two spellings of the fixture are different texts. */
  lemma FixtureStylesDiffer()
    ensures Render(FixtureDocument(Standard)) != Render(FixtureDocument(Beats))
  {
    var a, b := FixtureDocument(Standard), FixtureDocument(Beats);
    assert a == [a[0], a[1]] + a[2..] && b == [b[0], b[1]] + b[2..];
    RenderDiffersByStyle(a[0].text, "IngestPipeline", "pipeline-json", a[2..], b[2..]);
  }

  /** Yet both spellings rewrite to the same output. */
  lemma FixtureStylesRewriteAlike()
    ensures RewriteIngestPipeline(FixtureDocument(Standard), FixtureSubstitutions())
         == RewriteIngestPipeline(FixtureDocument(Beats), FixtureSubstitutions())
  {
    var a, b, subs := FixtureDocument(Standard), FixtureDocument(Beats), FixtureSubstitutions();
    forall i | 0 <= i < |a| && a[i].Ref?
      ensures exists j :: 0 <= j < |subs| && Matches(a[i], subs[j])
    {
      assert Matches(a[i], subs[i / 2]);
    }
    StyleIndependent(a, b, subs);
  }
}
