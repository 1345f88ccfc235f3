/**
 Template inheritance: a derived template is its parent's expansion with its own patches applied.  Expansions are
 memoised while chains of parents are climbed; a patch edits one component or one field of a component.
 */
module TemplateExpansion {
  import opened Wrappers
  import opened ParentChains
  import opened Placement

  // ---------------------------------------------------------------- patches

  datatype Json = Atom(text: string) | Object(fields: map<string, Json>)

  /** A patch as read; a patch that cannot be read is reported by the reader and skipped. */
  datatype Patch = Unreadable | Patch(op: string, path: string, value: Option<Json>)

  /** The components that may be patched, each with its fields that may be patched. */
  type Schema = map<string, set<string>>

  datatype PatchError =
    | PatchUnreadable | PatchCountExceeded | TargetInvalid | OperationUnsupported | PathUnsupported
    | RemoveHasValue | ValueMissing | TargetMissing

  const ADD := "add"
  const REMOVE := "remove"
  const REPLACE := "replace"

  /** An escaped stretch of a path, decoded behind what is already decoded: ~0 is a tilde, ~1 a slash, any other tilde
      is itself. */
  function Decoded(path: string, begin: nat, end: nat, before: string := []): string
    requires begin <= end <= |path|
    decreases end - begin
  {
    if begin == end then before
    else if begin + 1 < end && path[begin] == '~' && path[begin + 1] == '0'
        then Decoded(path, begin + 2, end, before + ['~'])
    else if begin + 1 < end && path[begin] == '~' && path[begin + 1] == '1'
        then Decoded(path, begin + 2, end, before + ['/'])
    else Decoded(path, begin + 1, end, before + [path[begin]])
  }

  /** Where the next slash is, or the end. */
  function SlashFrom(path: string, begin: nat): (end: nat)
    requires begin <= |path|
    ensures begin <= end <= |path|
    decreases |path| - begin
  {
    if begin == |path| || path[begin] == '/' then begin else SlashFrom(path, begin + 1)
  }

  /** The segments from a place just behind a slash, behind those already found. */
  function SegmentsFrom(path: string, begin: nat, before: seq<string>): seq<string>
    requires begin <= |path|
    decreases |path| - begin
  {
    var end := SlashFrom(path, begin);
    var segments := before + [Decoded(path, begin, end)];
    if end == |path| then segments else SegmentsFrom(path, end + 1, segments)
  }

  function Segments(path: string): seq<string> {
    if path == [] || path[0] != '/' then [] else SegmentsFrom(path, 1, [])
  }

  method SplitPatchPath(path: string) returns (segments: seq<string>)
    ensures segments == Segments(path)
  {
    segments := [];
    if path == [] || path[0] != '/' { return; }
    var begin := 1;
    while begin <= |path|
      invariant 1 <= begin <= |path| && Segments(path) == SegmentsFrom(path, begin, segments)
      decreases |path| - begin
    {
      var end := SlashFrom(path, begin);
      var decoded := Decode(path, begin, end);
      segments := segments + [decoded];
      if end == |path| { return; }
      begin := end + 1;
    }
  }

  method Decode(path: string, begin: nat, end: nat) returns (decoded: string)
    requires begin <= end <= |path|
    ensures decoded == Decoded(path, begin, end)
  {
    decoded := [];
    var index := begin;
    while index < end
      invariant begin <= index <= end && Decoded(path, begin, end) == Decoded(path, index, end, decoded)
    {
      if path[index] == '~' && index + 1 < end {
        if path[index + 1] == '0' {
          decoded, index := decoded + ['~'], index + 2;
          continue;
        }
        if path[index + 1] == '1' {
          decoded, index := decoded + ['/'], index + 2;
          continue;
        }
      }
      decoded, index := decoded + [path[index]], index + 1;
    }
  }

  // ---------------------------------------------------------------- every list of segments has a path

  function EscapedChar(c: char): string { if c == '~' then ['~', '0'] else if c == '/' then ['~', '1'] else [c] }

  function Escaped(text: string): (r: string)
    ensures '/' !in r
  {
    if text == [] then [] else EscapedChar(text[0]) + Escaped(text[1..])
  }

  /** The path that names these segments. */
  function Joined(segments: seq<string>): string {
    if segments == [] then [] else ['/'] + (Escaped(segments[0]) + Joined(segments[1..]))
  }

  lemma {:induction false} DecodesWhatStands(path: string, begin: nat, text: string, before: string)
    requires StandsAt(path, begin, Escaped(text)) && begin + |Escaped(text)| <= |path|
    ensures Decoded(path, begin, begin + |Escaped(text)|, before) == before + text
    decreases |text|
  {
    if text != [] {
      StandsApart(path, begin, EscapedChar(text[0]), Escaped(text[1..]));
      DecodesWhatStands(path, begin + |EscapedChar(text[0])|, text[1..], before + [text[0]]);
      assert before + text == (before + [text[0]]) + text[1..];
      StandingChar(path, begin, text[0], begin + |Escaped(text)|, before);
    }
  }

  lemma StandingChar(path: string, begin: nat, c: char, end: nat, before: string)
    requires StandsAt(path, begin, EscapedChar(c)) && begin + |EscapedChar(c)| <= end <= |path|
    ensures Decoded(path, begin, end, before) == Decoded(path, begin + |EscapedChar(c)|, end, before + [c])
  {
    StandsIs(path, begin, EscapedChar(c), 3);
    assert path[begin + 0] == EscapedChar(c)[0];
    assert c == '~' || c == '/' ==> path[begin + 1] == EscapedChar(c)[1];
  }

  lemma {:induction false} SlashIsAt(path: string, begin: nat, end: nat)
    requires begin <= end <= |path| && (forall i :: begin <= i < end ==> path[i] != '/')
    requires (end < |path| ==> path[end] == '/')
    ensures SlashFrom(path, begin) == end
    decreases end - begin
  {
    if begin < end { SlashIsAt(path, begin + 1, end); }
  }

  lemma {:induction false} OneSegment(path: string, begin: nat, end: nat, text: string, before: seq<string>)
    requires StandsAt(path, begin, Escaped(text)) && end == begin + |Escaped(text)| <= |path|
    requires (end < |path| ==> path[end] == '/')
    ensures SegmentsFrom(path, begin, before) == if end == |path| then before + [text]
        else SegmentsFrom(path, end + 1, before + [text])
  {
    StandsIs(path, begin, Escaped(text), 3);
    forall i | begin <= i < end ensures path[i] != '/' { assert path[begin + (i - begin)] == Escaped(text)[i - begin]; }
    DecodesWhatStands(path, begin, text, []);
    assert [] + text == text;
    SlashIsAt(path, begin, end);
  }

  lemma {:induction false} JoinedStands(path: string, begin: nat, others: seq<string>)
    requires others != [] && StandsAt(path, begin, Joined(others))
    ensures begin < |path| && path[begin] == '/' && StandsAt(path, begin + 1, Escaped(others[0]))
    ensures StandsAt(path, begin + 1 + |Escaped(others[0])|, Joined(others[1..]))
    ensures |Joined(others)| == 1 + |Escaped(others[0])| + |Joined(others[1..])|
  {
    StandsApart(path, begin, ['/'], Escaped(others[0]) + Joined(others[1..]));
    StandsApart(path, begin + 1, Escaped(others[0]), Joined(others[1..]));
    StandsIs(path, begin, ['/'], 3);
    assert path[begin + 0] == ['/'][0];
  }

  lemma {:induction false} SegmentsOfJoined(path: string, begin: nat, text: string, others: seq<string>,
                                            before: seq<string>)
    requires StandsAt(path, begin, Escaped(text)) && StandsAt(path, begin + |Escaped(text)|, Joined(others))
    requires |path| == begin + |Escaped(text)| + |Joined(others)|
    ensures SegmentsFrom(path, begin, before) == before + [text] + others
    decreases |others|
  {
    var end := begin + |Escaped(text)|;
    if others == [] {
      OneSegment(path, begin, end, text, before);
    } else {
      JoinedStands(path, end, others);
      OneSegment(path, begin, end, text, before);
      SegmentsOfJoined(path, end + 1, others[0], others[1..], before + [text]);
      SegmentsRegroup(before, text, others);
    }
  }

  lemma SegmentsRegroup(before: seq<string>, text: string, others: seq<string>)
    requires others != []
    ensures before + [text] + [others[0]] + others[1..] == before + [text] + others
  {
  }

  /** Splitting undoes joining, whatever characters the segments hold. */
  lemma {:induction false} SplitUndoesJoin(segments: seq<string>)
    requires segments != []
    ensures Segments(Joined(segments)) == segments
  {
    var path, first, others := Joined(segments), segments[0], segments[1..];
    StandsIs(path, 0, path, 3);
    StandsIs(path, 0, ['/'], 3);
    StandsApart(path, 0, ['/'], Escaped(first) + Joined(others));
    StandsApart(path, 1, Escaped(first), Joined(others));
    SegmentsOfJoined(path, 1, first, others, []);
    assert [] + [first] + others == segments;
  }

  // ---------------------------------------------------------------- applying patches

  /** Where a patch points: a component, or a field of one. */
  datatype Target = Whole(component: string) | Field(component: string, field: string)

  const COMPONENTS := "components"

  function TargetOf(schema: Schema, path: string): Option<Target> { TargetAt(schema, Segments(path)) }

  function TargetAt(schema: Schema, segments: seq<string>): Option<Target> {
    if (|segments| != 2 && |segments| != 3) || segments[0] != COMPONENTS || segments[1] !in schema then None
    else if |segments| == 2 then Some(Whole(segments[1]))
    else if segments[2] !in schema[segments[1]] then None else Some(Field(segments[1], segments[2]))
  }

  predicate InSchema(schema: Schema, target: Target) {
    target.component in schema && (target.Field? ==> target.field in schema[target.component])
  }

  function SegmentsOf(target: Target): seq<string> {
    match target
    case Whole(component) => [COMPONENTS, component]
    case Field(component, field) => [COMPONENTS, component, field]
  }

  function PathOf(target: Target): string { Joined(SegmentsOf(target)) }

  /** A patch can reach exactly the targets of the schema. */
  lemma {:induction false} TargetsHavePaths(schema: Schema, target: Target)
    ensures (exists path :: TargetOf(schema, path) == Some(target)) <==> InSchema(schema, target)
    ensures InSchema(schema, target) ==> TargetOf(schema, PathOf(target)) == Some(target)
  {
    if InSchema(schema, target) { PathReaches(schema, target); }
    if path :| TargetOf(schema, path) == Some(target) { TargetIsInSchema(schema, Segments(path), target); }
  }

  lemma TargetIsInSchema(schema: Schema, segments: seq<string>, target: Target)
    requires TargetAt(schema, segments) == Some(target)
    ensures InSchema(schema, target)
  {
  }

  lemma {:induction false} PathReaches(schema: Schema, target: Target)
    requires InSchema(schema, target)
    ensures TargetOf(schema, PathOf(target)) == Some(target)
  {
    SplitUndoesJoin(SegmentsOf(target));
    SegmentsReach(schema, SegmentsOf(target), target);
  }

  lemma SegmentsReach(schema: Schema, segments: seq<string>, target: Target)
    requires InSchema(schema, target) && segments == SegmentsOf(target)
    ensures TargetAt(schema, segments) == Some(target)
  {
  }

  function PatchObject(fields: map<string, Json>, op: string, key: string,
                       value: Option<Json>): Result<map<string, Json>, PatchError>
    requires value.None? <==> op == REMOVE
  {
    if op == REMOVE then if key !in fields then Err(TargetMissing) else Ok(fields - {key})
    else if op == REPLACE && key !in fields then Err(TargetMissing)
    else Ok(fields[key := value.value])
  }

  /** One patch: the new components, or why they stay as they are.  The layers only keep the cases out of proofs that do
      not look at them. */
  function PatchOne(schema: Schema, components: map<string, Json>, patch: Patch,
                    layers: nat := 3): Result<map<string, Json>, PatchError>
    decreases patch, layers
  {
    if layers > 0 then PatchOne(schema, components, patch, layers - 1)
    else if patch.Unreadable? then Err(PatchUnreadable)
    else if patch.op != ADD && patch.op != REMOVE && patch.op != REPLACE then Err(OperationUnsupported)
    else
      match TargetOf(schema, patch.path)
      case None => Err(PathUnsupported)
      case Some(target) =>
        if patch.op == REMOVE && patch.value.Some? then Err(RemoveHasValue)
        else if patch.op != REMOVE && patch.value.None? then Err(ValueMissing)
        else PatchTarget(components, patch.op, target, patch.value)
  }

  lemma {:induction false} PatchOneIs(schema: Schema, components: map<string, Json>, patch: Patch, layers: nat)
    ensures PatchOne(schema, components, patch, layers) == PatchOne(schema, components, patch, 0)
    decreases layers
  {
    if layers > 0 { PatchOneIs(schema, components, patch, layers - 1); }
  }

  function PatchTarget(components: map<string, Json>, op: string, target: Target,
                       value: Option<Json>): Result<map<string, Json>, PatchError>
    requires value.None? <==> op == REMOVE
  {
    match target
    case Whole(component) => PatchObject(components, op, component, value)
    case Field(component, field) =>
      if component !in components || !components[component].Object? then Err(TargetMissing)
      else
        match PatchObject(components[component].fields, op, field, value)
        case Err(error) => Err(error)
        case Ok(fields) => Ok(components[component := Object(fields)])
  }

  /** A patch that fails leaves everything as it is. */
  function Step(schema: Schema, components: map<string, Json>, patch: Patch): map<string, Json> {
    match PatchOne(schema, components, patch) case Ok(changed) => changed case Err(_) => components
  }

  /** The value at a target, if there is one. */
  function At(components: map<string, Json>, target: Target): Option<Json> {
    if target.component !in components then None
    else
      match target
      case Whole(component) => Some(components[component])
      case Field(component, field) =>
        if components[component].Object? && field in components[component].fields
            then Some(components[component].fields[field]) else None
  }

  /** What a patch does at its target: add puts the value there, replace does where something was, remove takes it
      away; and nothing elsewhere changes. */
  lemma {:induction false} PatchDoesItsPart(schema: Schema, components: map<string, Json>, patch: Patch)
    requires PatchOne(schema, components, patch).Ok?
    ensures !patch.Unreadable? && TargetOf(schema, patch.path).Some?
    ensures var target, after := TargetOf(schema, patch.path).value, PatchOne(schema, components, patch).value;
      && At(after, target) == patch.value
      && (patch.op == REPLACE || patch.op == REMOVE ==> At(components, target).Some?)
      && (forall other: Target :: other.component != target.component ==> At(after, other) == At(components, other))
      && (forall field :: target.Field? && field != target.field ==>
            At(after, Field(target.component, field)) == At(components, Field(target.component, field)))
  {
    PatchOneIs(schema, components, patch, 3);
  }

  /** What the target of a patch is part of is there: a field needs its component to be an object. */
  predicate HasPlace(components: map<string, Json>, target: Target) {
    target.Field? ==> target.component in components && components[target.component].Object?
  }

  /** A patch is refused for exactly one of its reasons, in this order; otherwise it is carried out. */
  lemma {:induction false} PatchSucceedsExactly(schema: Schema, components: map<string, Json>, patch: Patch)
    ensures var r := PatchOne(schema, components, patch);
      if patch.Unreadable? then r == Err(PatchUnreadable)
      else if patch.op !in {"add", "remove", "replace"} then r == Err(OperationUnsupported)
      else
        var target := TargetOf(schema, patch.path);
        if target.None? then r == Err(PathUnsupported)
        else if patch.op == "remove" && patch.value.Some? then r == Err(RemoveHasValue)
        else if patch.op != "remove" && patch.value.None? then r == Err(ValueMissing)
        else if !HasPlace(components, target.value) || (patch.op != "add" && At(components, target.value).None?) then
          r == Err(TargetMissing)
        else r.Ok?
  {
    PatchOneIs(schema, components, patch, 3);
  }

  ghost function Reaches(schema: Schema, patch: Patch): Option<string> {
    if patch.Unreadable? then None
    else match TargetOf(schema, patch.path) case None => None case Some(target) => Some(target.component)
  }

  /** What a patch does to a component depends on that component alone. */
  lemma {:induction false} PatchIsLocal(schema: Schema, few: map<string, Json>, many: map<string, Json>, patch: Patch,
                                        component: string)
    requires Reaches(schema, patch) == Some(component)
    requires component in few <==> component in many
    requires component in few ==> few[component] == many[component]
    ensures component in Step(schema, few, patch) <==> component in Step(schema, many, patch)
    ensures component in Step(schema, few, patch) ==>
      Step(schema, few, patch)[component] == Step(schema, many, patch)[component]
  {
    PatchOneIs(schema, few, patch, 3);
    PatchOneIs(schema, many, patch, 3);
  }

  lemma {:induction false} PatchSparesOthers(schema: Schema, components: map<string, Json>, patch: Patch, other: string)
    requires Reaches(schema, patch) != Some(other)
    ensures other in Step(schema, components, patch) <==> other in components
    ensures other in components ==> Step(schema, components, patch)[other] == components[other]
  {
    PatchOneIs(schema, components, patch, 3);
  }

  /** Patches to different components commute. */
  lemma {:induction false} PatchesCommute(schema: Schema, components: map<string, Json>, p: Patch, q: Patch)
    requires Reaches(schema, p) != Reaches(schema, q) || Reaches(schema, p) == None
    ensures Step(schema, Step(schema, components, p), q) == Step(schema, Step(schema, components, q), p)
  {
    var pq, qp := Step(schema, Step(schema, components, p), q), Step(schema, Step(schema, components, q), p);
    forall c: string ensures (c in pq <==> c in qp) && (c in pq ==> pq[c] == qp[c]) {
      CommutesAt(schema, components, p, q, c);
    }
  }

  lemma {:induction false} CommutesAt(schema: Schema, components: map<string, Json>, p: Patch, q: Patch, c: string)
    requires Reaches(schema, p) != Reaches(schema, q) || Reaches(schema, p) == None
    ensures var pq, qp := Step(schema, Step(schema, components, p), q), Step(schema, Step(schema, components, q), p);
            (c in pq <==> c in qp) && (c in pq ==> pq[c] == qp[c])
  {
    if Reaches(schema, p) != Some(c) {
      PatchSparesOthers(schema, components, p, c);
      PatchSparesOthers(schema, Step(schema, components, q), p, c);
    } else {
      PatchSparesOthers(schema, components, q, c);
      PatchSparesOthers(schema, Step(schema, components, p), q, c);
    }
    if Reaches(schema, q) == Some(c) {
      PatchIsLocal(schema, components, Step(schema, components, p), q, c);
    } else if Reaches(schema, p) == Some(c) {
      PatchIsLocal(schema, components, Step(schema, components, q), p, c);
    } else {
      PatchSparesOthers(schema, components, q, c);
      PatchSparesOthers(schema, Step(schema, components, p), q, c);
    }
  }

  function StepFirst(schema: Schema, components: map<string, Json>, patches: seq<Patch>, count: nat): map<string, Json>
    requires count <= |patches|
  {
    if count == 0 then components
    else Step(schema, StepFirst(schema, components, patches, count - 1), patches[count - 1])
  }

  /** All patches in order, unless there are too many or the components are no object. */
  function Patched(schema: Schema, limit: nat, components: Json, patches: seq<Patch>): Json {
    if |patches| > limit || !components.Object? then components
    else Object(StepFirst(schema, components.fields, patches, |patches|))
  }

  /** What is reported, patch by patch. */
  function ErrorsOfFirst(schema: Schema, components: map<string, Json>, patches: seq<Patch>,
                         count: nat): seq<PatchError>
    requires count <= |patches|
  {
    if count == 0 then [] else
      var before := ErrorsOfFirst(schema, components, patches, count - 1);
      match PatchOne(schema, StepFirst(schema, components, patches, count - 1), patches[count - 1])
      case Ok(_) => before
      case Err(error) => before + [error]
  }

  function PatchErrors(schema: Schema, limit: nat, components: Json, patches: seq<Patch>): seq<PatchError> {
    if |patches| > limit then [PatchCountExceeded]
    else if !components.Object? then [TargetInvalid] else ErrorsOfFirst(schema, components.fields, patches, |patches|)
  }

  method ApplyPatches(schema: Schema, limit: nat, components: Json, patches: seq<Patch>)
    returns (r: Json, errors: seq<PatchError>)
    ensures r == Patched(schema, limit, components, patches)
    ensures errors == PatchErrors(schema, limit, components, patches)
    ensures |patches| > limit ==> r == components && errors == [PatchCountExceeded]
    ensures |patches| <= limit && !components.Object? ==> r == components && errors == [TargetInvalid]
  {
    if |patches| > limit { return components, [PatchCountExceeded]; }
    if !components.Object? { return components, [TargetInvalid]; }
    errors := [];
    var fields := components.fields;
    for i := 0 to |patches|
      invariant fields == StepFirst(schema, components.fields, patches, i)
      invariant errors == ErrorsOfFirst(schema, components.fields, patches, i)
    {
      match PatchOne(schema, fields, patches[i])
      case Err(error) => errors := errors + [error];
      case Ok(changed) => fields := changed;
    }
    r := Object(fields);
  }

  // ---------------------------------------------------------------- expansion, by its definition

  /** A template as read: a root has no parent and a prototype; a derived template has a parent and patches. */
  datatype RawTemplate = RawTemplate(base: Option<string>, prototype: Option<Json>, patches: seq<Patch>)

  datatype Rules = Rules(schema: Schema, limit: nat)

  ghost function ParentsOf(templates: map<string, RawTemplate>): map<string, Option<string>> {
    map id | id in templates :: templates[id].base
  }

  /** Expansion climbing at most so far: a root's prototype, or the parent's expansion with the template's patches. */
  ghost function ExpandWithin(rules: Rules, templates: map<string, RawTemplate>, id: string, steps: nat): Option<Json>
    requires id in templates
    decreases steps
  {
    match templates[id].base
    case None => templates[id].prototype
    case Some(parent) =>
      if parent !in templates || steps == 0 then None
      else
        match ExpandWithin(rules, templates, parent, steps - 1)
        case None => None
        case Some(components) => Some(Patched(rules.schema, rules.limit, components, templates[id].patches))
  }

  ghost function Expansion(rules: Rules, templates: map<string, RawTemplate>, id: string): Option<Json>
    requires id in templates
  {
    if n: nat :| ExpandWithin(rules, templates, id, n).Some? then ExpandWithin(rules, templates, id, n) else None
  }

  lemma {:induction false} FartherSame(rules: Rules, templates: map<string, RawTemplate>, id: string, few: nat,
                                       many: nat)
    requires id in templates && few <= many && ExpandWithin(rules, templates, id, few).Some?
    ensures ExpandWithin(rules, templates, id, many) == ExpandWithin(rules, templates, id, few)
    decreases few
  {
    if templates[id].base.Some? { FartherSame(rules, templates, templates[id].base.value, few - 1, many - 1); }
  }

  lemma {:induction false} ExpansionIs(rules: Rules, templates: map<string, RawTemplate>, id: string, steps: nat)
    requires id in templates && ExpandWithin(rules, templates, id, steps).Some?
    ensures Expansion(rules, templates, id) == ExpandWithin(rules, templates, id, steps)
  {
    forall n: nat | ExpandWithin(rules, templates, id, n).Some?
      ensures ExpandWithin(rules, templates, id, n) == ExpandWithin(rules, templates, id, steps)
    {
      if n <= steps {
        FartherSame(rules, templates, id, n, steps);
      } else {
        FartherSame(rules, templates, id, steps, n);
      }
    }
  }

  /** The recursive definition, without a bound. */
  lemma {:induction false} ExpansionOfOne(rules: Rules, templates: map<string, RawTemplate>, id: string)
    requires id in templates
    ensures templates[id].base == None ==> Expansion(rules, templates, id) == templates[id].prototype
    ensures templates[id].base.Some? && templates[id].base.value !in templates ==>
      Expansion(rules, templates, id) == None
    ensures templates[id].base.Some? && templates[id].base.value in templates ==>
      Expansion(rules, templates, id) ==
      match Expansion(rules, templates, templates[id].base.value)
      case None => None
      case Some(components) => Some(Patched(rules.schema, rules.limit, components, templates[id].patches))
  {
    if templates[id].base == None {
      if templates[id].prototype.Some? { ExpansionIs(rules, templates, id, 0); }
    } else if templates[id].base.value in templates {
      var parent := templates[id].base.value;
      if n: nat :| ExpandWithin(rules, templates, parent, n).Some? {
        ExpansionIs(rules, templates, parent, n);
        ExpansionIs(rules, templates, id, n + 1);
      } else if m: nat :| ExpandWithin(rules, templates, id, m).Some? {
        assert ExpandWithin(rules, templates, parent, m - 1).Some?;
      }
    }
  }

  /** A template expands exactly when its ancestors end at a root that has a prototype. */
  lemma {:induction false} ExpandsExactly(rules: Rules, templates: map<string, RawTemplate>, id: string)
    requires id in templates
    ensures Expansion(rules, templates, id).Some? <==>
            match FateOf(ParentsOf(templates), id)
            case Rooted(root) => root in templates && templates[root].prototype.Some?
            case _ => false
  {
    var parents := ParentsOf(templates);
    if n: nat :| EndWithin(parents, id, n).Some? {
      FateIs(parents, id, n);
      ExpandsWithin(rules, templates, id, n);
    } else if n: nat :| ExpandWithin(rules, templates, id, n).Some? {
      ExpansionEnds(rules, templates, id, n);
    }
  }

  lemma {:induction false} ExpandsWithin(rules: Rules, templates: map<string, RawTemplate>, id: string, steps: nat)
    requires id in templates && EndWithin(ParentsOf(templates), id, steps).Some?
    ensures Expansion(rules, templates, id).Some? <==>
            match EndWithin(ParentsOf(templates), id, steps).value
            case Rooted(root) => root in templates && templates[root].prototype.Some?
            case _ => false
    decreases steps
  {
    ExpansionOfOne(rules, templates, id);
    assert ParentsOf(templates)[id] == templates[id].base;
    if templates[id].base.Some? && templates[id].base.value in templates {
      ExpandsWithin(rules, templates, templates[id].base.value, steps - 1);
    }
  }

  lemma {:induction false} ExpansionEnds(rules: Rules, templates: map<string, RawTemplate>, id: string, steps: nat)
    requires id in templates && ExpandWithin(rules, templates, id, steps).Some?
    ensures EndWithin(ParentsOf(templates), id, steps).Some?
    decreases steps
  {
    assert ParentsOf(templates)[id] == templates[id].base;
    if templates[id].base.Some? { ExpansionEnds(rules, templates, templates[id].base.value, steps - 1); }
  }

  // ---------------------------------------------------------------- the memoised resolution

  datatype State = Visiting | Resolved(expanded: Json) | Failed

  lemma {:induction false} FailureSpreads(rules: Rules, templates: map<string, RawTemplate>, chain: seq<string>, i: nat)
    requires Walk(ParentsOf(templates), chain) && i < |chain| && Expansion(rules, templates, chain[|chain| - 1]) == None
    ensures Expansion(rules, templates, chain[i]) == None
    decreases |chain| - i
  {
    if i + 1 < |chain| {
      assert ParentsOf(templates)[chain[i]] == Some(chain[i + 1]);
      ExpansionOfOne(rules, templates, chain[i]);
      FailureSpreads(rules, templates, chain, i + 1);
    }
  }

  /** A climb fails throughout when it ends at a failure, at a missing parent or where it has been. */
  lemma {:induction false} ClimbFails(rules: Rules, templates: map<string, RawTemplate>, chain: seq<string>,
                                      next: string)
    requires Walk(ParentsOf(templates), chain) && chain != [] && ParentsOf(templates)[chain[|chain| - 1]] == Some(next)
    requires next in chain || next !in templates || Expansion(rules, templates, next) == None
    ensures forall i :: 0 <= i < |chain| ==> Expansion(rules, templates, chain[i]) == None
  {
    var last := chain[|chain| - 1];
    if next in chain {
      var back :| 0 <= back < |chain| && chain[back] == next;
      LoopIsEndless(ParentsOf(templates), chain, back);
      ExpandsExactly(rules, templates, last);
    } else {
      ExpansionOfOne(rules, templates, last);
    }
    forall i | 0 <= i < |chain|
        ensures Expansion(rules, templates, chain[i]) == None { FailureSpreads(rules, templates, chain, i); }
  }

  /** What has to be reported about the inheritance of the templates seen: exactly those whose parent is missing, and
      for every cycle exactly one template on it. */
  ghost predicate AllReported(parents: map<string, Option<string>>, seen: set<string>, orphans: set<string>,
                              cycles: set<string>)
  {
    && UpwardClosed(parents, seen)
    && (forall k :: k in orphans <==> k in seen && LacksParent(parents, k))
    && CyclesReported(parents, seen, cycles)
  }

  ghost predicate CyclesReported(parents: map<string, Option<string>>, seen: set<string>, cycles: set<string>)
    requires UpwardClosed(parents, seen)
  {
    && (forall k :: k in cycles ==> k in seen && OnCycle(parents, k))
    && (forall k :: k in seen ==> (RunsInto(parents, k, cycles) <==> FateOf(parents, k) == Endless))
    && (forall k, other :: k in cycles && other in cycles && RunsInto(parents, k, {other}) ==> k == other)
  }

  ghost predicate OnCycle(parents: map<string, Option<string>>, key: string)
    requires key in parents
  {
    FateOf(parents, key) == Endless && exists n: nat :: n > 0 && Above(parents, key, n) == key
  }

  /** What the end of a climb adds to the reports. */
  ghost predicate TopReported(parents: map<string, Option<string>>, seen: set<string>, chain: seq<string>,
                              orphans: set<string>, cycles: set<string>, newOrphans: set<string>,
                              newCycles: set<string>)
    requires Walk(parents, chain) && chain != []
  {
    var top := chain[|chain| - 1];
    match parents[top]
    case None => newOrphans == orphans && newCycles == cycles
    case Some(next) =>
      if next !in parents then newOrphans == orphans + {top} && newCycles == cycles
      else
        && newOrphans == orphans
        && if next in chain then newCycles == cycles + {next} else newCycles == cycles && next in seen
  }

  /** Nothing that never ends was seen or climbed through anew. */
  lemma {:induction false} NoNewCycle(parents: map<string, Option<string>>, seen: set<string>, chain: seq<string>,
                                      cycles: set<string>, all: set<string>)
    requires UpwardClosed(parents, seen) && UpwardClosed(parents, all) && CyclesReported(parents, seen, cycles)
    requires Walk(parents, chain) && chain != [] && forall k :: k in all <==> k in seen || k in chain
    requires var next := parents[chain[|chain| - 1]]; next == None || next.value !in parents || next.value in seen
    ensures CyclesReported(parents, all, cycles)
  {
    var last := |chain| - 1;
    FateOfOne(parents, chain[last]);
    forall i | 0 <= i < |chain|
      ensures RunsInto(parents, chain[i], cycles) <==> FateOf(parents, chain[i]) == Endless
    {
      WalkSharesFate(parents, chain, i, last);
      if RunsInto(parents, chain[i], cycles) {
        var n: nat :| Above(parents, chain[i], n) in cycles;
        AboveShares(parents, chain[i], n);
      }
      if FateOf(parents, chain[i]) == Endless {
        var next := parents[chain[last]].value;
        var n: nat :| Above(parents, next, n) in cycles;
        WalkClimbs(parents, chain, i, next, n);
        assert Above(parents, chain[i], |chain| - i + n) in cycles;
      }
    }
  }

  /** A climb that comes back to itself reports the first template it meets again, which is on a cycle of its own. */
  lemma {:induction false} NewCycle(parents: map<string, Option<string>>, seen: set<string>, chain: seq<string>,
                                    cycles: set<string>, all: set<string>, back: nat)
    requires UpwardClosed(parents, seen) && UpwardClosed(parents, all) && CyclesReported(parents, seen, cycles)
    requires Walk(parents, chain) && back < |chain| && parents[chain[|chain| - 1]] == Some(chain[back])
    requires (forall k :: k in all <==> k in seen || k in chain) && forall k :: k in chain ==> k !in seen
    ensures CyclesReported(parents, all, cycles + {chain[back]})
  {
    var next, more := chain[back], cycles + {chain[back]};
    LoopIsEndless(parents, chain, back);
    WalkClimbs(parents, chain, back, next, 0);
    assert OnCycle(parents, next);
    forall k | k in all ensures RunsInto(parents, k, more) <==> FateOf(parents, k) == Endless {
      if RunsInto(parents, k, more) {
        var n: nat :| Above(parents, k, n) in more;
        AboveShares(parents, k, n);
      }
      if k in chain {
        var i :| 0 <= i < |chain| && chain[i] == k;
        WalkClimbs(parents, chain, i, next, 0);
        assert Above(parents, k, |chain| - i) in more;
      } else if FateOf(parents, k) == Endless {
        var n: nat :| Above(parents, k, n) in cycles;
        assert Above(parents, k, n) in more;
      }
    }
    forall k, other | k in more && other in more && RunsInto(parents, k, {other}) ensures k == other {
      var n: nat :| Above(parents, k, n) in {other};
      if k in cycles { AboveStays(parents, seen, k, n); } else { ClimberStays(parents, chain, back, n); }
    }
  }

  lemma ClimberStays(parents: map<string, Option<string>>, chain: seq<string>, back: nat, n: nat)
    requires Walk(parents, chain) && back < |chain| && parents[chain[|chain| - 1]] == Some(chain[back])
    ensures Above(parents, chain[back], n) in chain
  {
    var climbed := set k | k in chain;
    forall k | k in climbed ensures k in parents && parents[k].Some? && parents[k].value in climbed {
      var i :| 0 <= i < |chain| && chain[i] == k;
      assert i + 1 < |chain| ==> parents[chain[i]] == Some(chain[i + 1]);
    }
    AboveStays(parents, climbed, chain[back], n);
  }

  /** What one climb adds makes the reports right for every template on its way. */
  lemma {:induction false} ClimbIsReported(parents: map<string, Option<string>>, seen: set<string>, chain: seq<string>,
                                           orphans: set<string>, cycles: set<string>, newOrphans: set<string>,
                                           newCycles: set<string>, all: set<string>)
    requires AllReported(parents, seen, orphans, cycles) && Walk(parents, chain) && chain != []
    requires TopReported(parents, seen, chain, orphans, cycles, newOrphans, newCycles)
    requires (forall k :: k in all <==> k in seen || k in chain) && forall k :: k in chain ==> k !in seen
    ensures AllReported(parents, all, newOrphans, newCycles)
  {
    ClimbClosed(parents, seen, chain, orphans, cycles, newOrphans, newCycles, all);
    var next := parents[chain[|chain| - 1]];
    if next.Some? && next.value in chain {
      var back :| 0 <= back < |chain| && chain[back] == next.value;
      NewCycle(parents, seen, chain, cycles, all, back);
    } else {
      NoNewCycle(parents, seen, chain, cycles, all);
    }
  }

  lemma ClimbClosed(parents: map<string, Option<string>>, seen: set<string>, chain: seq<string>, orphans: set<string>,
                    cycles: set<string>, newOrphans: set<string>, newCycles: set<string>, all: set<string>)
    requires AllReported(parents, seen, orphans, cycles) && Walk(parents, chain) && chain != []
    requires TopReported(parents, seen, chain, orphans, cycles, newOrphans, newCycles)
    requires forall k :: k in all <==> k in seen || k in chain
    ensures UpwardClosed(parents, all)
    ensures forall k :: k in newOrphans <==> k in all && LacksParent(parents, k)
  {
    forall i | 0 <= i < |chain|
      ensures parents[chain[i]].Some? && parents[chain[i]].value in parents ==> parents[chain[i]].value in all
      ensures i + 1 < |chain| ==> !LacksParent(parents, chain[i])
    {
      assert i + 1 < |chain| ==> parents[chain[i]] == Some(chain[i + 1]);
    }
  }

  class TemplateResolver {
    const rules: Rules
    const templates: map<string, RawTemplate>
    var states: map<string, State>
    /** What was reported about each template's patches. */
    var reports: map<string, seq<PatchError>>
    /** The templates at whose parent reference a missing parent was reported, and those at which a cycle was. */
    var orphans: set<string>
    var cycles: set<string>

    constructor (rules: Rules, templates: map<string, RawTemplate>)
      ensures this.rules == rules && this.templates == templates && states == map[] && reports == map[] && Sound()
    {
      this.rules, this.templates, states, reports := rules, templates, map[], map[];
      orphans, cycles := {}, {};
    }

    ghost function Parents(): map<string, Option<string>> { ParentsOf(templates) }

    /** Everything memoised is right, nothing is left half done, every expanded derived template has had its patches
        reported, once, and what failed has been reported. */
    ghost predicate Sound()
      reads this
    {
      Memoised(states) && AllReported(Parents(), states.Keys, orphans, cycles)
    }

    ghost predicate AllRight(known: map<string, State>) {
      forall id :: id in known ==> id in templates && Right(id, known[id])
    }

    ghost predicate Memoised(known: map<string, State>)
      reads this`reports
    {
      && AllRight(known)
      && (forall id :: id in reports ==> id in templates && Reported(id, reports[id]))
      && (forall id :: id in reports <==> id in known && known[id].Resolved? && templates[id].base.Some?)
    }

    /** The patches' errors on the parent's expansion. */
    ghost predicate Reported(id: string, errors: seq<PatchError>)
      requires id in templates
    {
      && templates[id].base.Some? && templates[id].base.value in templates
      && Expansion(rules, templates, templates[id].base.value).Some?
      && errors == PatchErrors(rules.schema, rules.limit, Expansion(rules, templates, templates[id].base.value).value,
                               templates[id].patches)
    }

    ghost predicate Right(id: string, state: State)
      requires id in templates
    {
      match state
      case Visiting => false
      case Resolved(expanded) => Expansion(rules, templates, id) == Some(expanded)
      case Failed => Expansion(rules, templates, id) == None
    }

    /** The templates climbed so far are being visited; the others stand as they did. */
    ghost predicate Marked(was: map<string, State>, chain: seq<string>)
      reads this`states
    {
      && (forall k :: k in chain ==> k !in was)
      && (forall k :: k in states <==> k in was || k in chain)
      && (forall k :: k in states ==> states[k] == if k in chain then Visiting else was[k])
    }

    ghost predicate NoRepeats(chain: seq<string>) { forall i, j :: 0 <= i < j < |chain| ==> chain[i] != chain[j] }

    /** What a climb has come to: an expansion to start from, or that nothing on the chain expands. */
    ghost predicate Ends(chain: seq<string>, components: Option<Json>)
      requires Walk(Parents(), chain) && chain != []
    {
      if components.Some? then Base(chain, components.value)
      else forall i :: 0 <= i < |chain| ==> Expansion(rules, templates, chain[i]) == None
    }

    /** Climbs until something already expanded, a root or a failure; the chain is marked as being visited. */
    method Climb(id: string) returns (chain: seq<string>, components: Option<Json>)
      requires AllRight(states) && id in templates && id !in states
      modifies this`states, this`orphans, this`cycles
      ensures Walk(Parents(), chain) && chain != [] && chain[0] == id && NoRepeats(chain)
      ensures Marked(old(states), chain) && Ends(chain, components)
      ensures TopReported(Parents(), old(states).Keys, chain, old(orphans), old(cycles), orphans, cycles)
    {
      chain, components := [], None;
      var current := id;
      ghost var unseen := templates.Keys;
      while true
        invariant current in templates && Walk(Parents(), chain)
        invariant if chain == [] then current == id && current !in states
                  else chain[0] == id && Parents()[chain[|chain| - 1]] == Some(current)
        invariant NoRepeats(chain) && Marked(old(states), chain)
        invariant forall k :: k in chain ==> k !in unseen
        invariant forall k :: k in templates ==> k in unseen || k in chain
        invariant orphans == old(orphans) && cycles == old(cycles)
        decreases |unseen|
      {
        if current in states {
          components := Meet(current, chain, old(states));
          return;
        }
        var next, done, found := Mark(current, chain, old(states));
        chain, unseen := chain + [current], unseen - {current};
        if done {
          components := found;
          return;
        }
        current := next;
      }
    }

    /** A climb that meets a template it knows: one already expanded, one that failed, or one of its own. */
    method Meet(current: string, chain: seq<string>, ghost was: map<string, State>) returns (components: Option<Json>)
      requires current in states && Walk(Parents(), chain) && chain != [] && Marked(was, chain)
      requires AllRight(was)
      requires Parents()[chain[|chain| - 1]] == Some(current) && current in templates
      modifies this`cycles
      ensures Ends(chain, components)
      ensures TopReported(Parents(), was.Keys, chain, orphans, old(cycles), orphans, cycles)
    {
      components := None;
      if states[current].Resolved? {
        components := Some(states[current].expanded);
      } else if states[current].Failed? {
        ClimbFails(rules, templates, chain, current);
      } else {
        cycles := cycles + {current};
        ClimbFails(rules, templates, chain, current);
      }
    }

    /** One template of the climb: the parent to go on to, or what the climb has come to. */
    method Mark(current: string, chain: seq<string>, ghost was: map<string, State>)
      returns (next: string, done: bool, components: Option<Json>)
      requires current in templates && current !in states && Walk(Parents(), chain) && Marked(was, chain)
      requires NoRepeats(chain)
      requires chain != [] ==> Parents()[chain[|chain| - 1]] == Some(current)
      modifies this`states, this`orphans
      ensures Walk(Parents(), chain + [current]) && Marked(was, chain + [current]) && NoRepeats(chain + [current])
      ensures !done ==> next in templates && Parents()[current] == Some(next) && orphans == old(orphans)
      ensures done ==> Ends(chain + [current], components)
      ensures done ==> TopReported(Parents(), was.Keys, chain + [current], old(orphans), cycles, orphans, cycles)
    {
      WalkGrows(Parents(), chain, current);
      states := states[current := Visiting];
      var item := templates[current];
      ExpansionOfOne(rules, templates, current);
      next, done, components := current, true, None;
      if item.base == None {
        components := item.prototype;
        if components == None { TopFails(chain + [current]); }
      } else if item.base.value !in templates {
        orphans := orphans + {current};
        ClimbFails(rules, templates, chain + [current], item.base.value);
      } else {
        next, done := item.base.value, false;
      }
    }

    lemma TopFails(chain: seq<string>)
      requires Walk(Parents(), chain) && chain != [] && Expansion(rules, templates, chain[|chain| - 1]) == None
      ensures forall i :: 0 <= i < |chain| ==> Expansion(rules, templates, chain[i]) == None
    {
      forall i | 0 <= i < |chain| ensures Expansion(rules, templates, chain[i]) == None {
        FailureSpreads(rules, templates, chain, i);
      }
    }

    /** What the top of a climb expands from: its own prototype, or its parent's expansion. */
    ghost predicate Base(chain: seq<string>, components: Json)
      requires Walk(Parents(), chain) && chain != []
    {
      var top := templates[chain[|chain| - 1]];
      match top.base
      case None => top.prototype == Some(components)
      case Some(parent) => parent in templates && Expansion(rules, templates, parent) == Some(components)
    }

    method Fail(chain: seq<string>)
      requires forall k :: k in chain ==> k in states
      modifies this`states
      ensures states.Keys == old(states.Keys)
      ensures forall k :: k in states ==> states[k] == if k in chain then Failed else old(states[k])
    {
      for i := 0 to |chain|
        invariant states.Keys == old(states.Keys)
        invariant forall k :: k in states && k !in chain ==> states[k] == old(states[k])
        invariant forall j :: 0 <= j < i ==> states[chain[j]] == Failed
      {
        states := states[chain[i] := Failed];
      }
    }

    /** Expanded, memoised, and reported once if derived. */
    ghost predicate Done(id: string)
      reads this
    {
      && id in templates && id in states && states[id].Resolved? && Right(id, states[id])
      && (id in reports <==> templates[id].base.Some?)
      && (id in reports ==> Reported(id, reports[id]))
    }

    /** Back down the climb, patching on the way and memoising every expansion. */
    method Unwind(chain: seq<string>, found: Json) returns (r: Json)
      requires Walk(Parents(), chain) && chain != [] && Base(chain, found)
      requires forall i, j :: 0 <= i < j < |chain| ==> chain[i] != chain[j]
      requires forall k :: k in chain ==> k !in reports
      modifies this`states, this`reports
      ensures Expansion(rules, templates, chain[0]) == Some(r)
      ensures forall k :: k in chain ==> Done(k)
      ensures forall k :: k !in chain ==> (k in states <==> k in old(states)) && (k in reports <==> k in old(reports))
      ensures forall k :: k !in chain && k in states ==> states[k] == old(states[k])
      ensures forall k :: k !in chain && k in reports ==> reports[k] == old(reports[k])
    {
      r := found;
      ghost var done: set<string> := {};
      for i := |chain| downto 0
        invariant forall j :: i <= j < |chain| ==> chain[j] in done
        invariant forall j :: 0 <= j < i ==> chain[j] !in done
        invariant forall k :: k in done ==> k in chain && Done(k)
        invariant forall k :: k !in done ==>
          (k in states <==> k in old(states)) && (k in reports <==> k in old(reports))
        invariant forall k :: k !in done && k in states ==> states[k] == old(states[k])
        invariant forall k :: k !in done && k in reports ==> reports[k] == old(reports[k])
        invariant if i < |chain| then Expansion(rules, templates, chain[i]) == Some(r) else r == found
      {
        Rung(chain, i, r);
        r := Memoise(chain[i], r);
        done := done + {chain[i]};
      }
    }

    /** Patches what the parent expands to, or takes the prototype as it is, and memoises that. */
    method Memoise(id: string, above: Json) returns (r: Json)
      requires id in templates && id !in reports && Follows(id, above)
      modifies this`states, this`reports
      ensures Done(id) && Expansion(rules, templates, id) == Some(r)
      ensures states == old(states)[id := Resolved(r)] && forall k :: k != id && old(Done(k)) ==> Done(k)
      ensures forall k :: k != id ==>
        (k in reports <==> k in old(reports)) && (k in reports ==> reports[k] == old(reports[k]))
    {
      r := above;
      if templates[id].base.Some? {
        var patched, errors := ApplyPatches(rules.schema, rules.limit, above, templates[id].patches);
        r, reports := patched, reports[id := errors];
      }
      states := states[id := Resolved(r)];
    }

    /** The template's expansion starts from this. */
    ghost predicate Follows(id: string, above: Json)
      requires id in templates
    {
      match templates[id].base
      case None => Expansion(rules, templates, id) == Some(above)
      case Some(_) =>
        && Reported(id, PatchErrors(rules.schema, rules.limit, above, templates[id].patches))
        && Expansion(rules, templates, id) == Some(Patched(rules.schema, rules.limit, above, templates[id].patches))
    }

    /** One step down: what the step above gives is what this template expands from. */
    lemma Rung(chain: seq<string>, i: nat, above: Json)
      requires Walk(Parents(), chain) && i < |chain|
      requires if i + 1 < |chain| then Expansion(rules, templates, chain[i + 1]) == Some(above) else Base(chain, above)
      ensures Follows(chain[i], above)
    {
      ExpansionOfOne(rules, templates, chain[i]);
      assert i + 1 < |chain| ==> Parents()[chain[i]] == Some(chain[i + 1]);
    }

    /** The template's expansion, as defined; whatever was resolved before stays resolved. */
    method Resolve(id: string) returns (r: Option<Json>)
      requires Sound() && id in templates
      modifies this
      ensures Sound() && id in states && r == Expansion(rules, templates, id)
      ensures forall k :: k in old(states) ==> k in states && states[k] == old(states[k])
    {
      if id in states {
        r := if states[id].Resolved? then Some(states[id].expanded) else None;
        return;
      }
      var chain, found := Climb(id);
      ClimbIsReported(Parents(), old(states).Keys, chain, old(orphans), old(cycles), orphans, cycles, states.Keys);
      r := Settle(chain, found, old(states));
    }

    method ResolveEach(order: seq<string>) returns (expandedById: map<string, Json>)
      requires Sound() && forall id :: id in order ==> id in templates
      modifies this
      ensures Sound() && expandedById == ExpandedUpTo(rules, templates, order, |order|)
    {
      expandedById := map[];
      for i := 0 to |order|
        invariant Sound() && expandedById == ExpandedUpTo(rules, templates, order, i)
      {
        expandedById := ResolveNext(order, i, expandedById);
      }
    }

    method ResolveNext(order: seq<string>, i: nat, before: map<string, Json>) returns (expandedById: map<string, Json>)
      requires Sound() && i < |order| && forall id :: id in order ==> id in templates
      requires before == ExpandedUpTo(rules, templates, order, i)
      modifies this
      ensures Sound() && expandedById == ExpandedUpTo(rules, templates, order, i + 1)
    {
      var expanded := Resolve(order[i]);
      expandedById := if expanded.Some? then before[order[i] := expanded.value] else before;
    }

    /** What a climb came to is memoised for all of its templates. */
    method Settle(chain: seq<string>, found: Option<Json>, ghost was: map<string, State>) returns (r: Option<Json>)
      requires Walk(Parents(), chain) && chain != [] && NoRepeats(chain) && Ends(chain, found)
      requires Memoised(was) && Marked(was, chain)
      modifies this`states, this`reports
      ensures Memoised(states) && states.Keys == old(states).Keys && r == Expansion(rules, templates, chain[0])
      ensures forall k :: k in was ==> k in states && states[k] == was[k]
    {
      if found == None {
        Fail(chain);
        r := None;
      } else {
        var expanded := Unwind(chain, found.value);
        assert forall k :: k in states <==> k in old(states);
        r := Some(expanded);
      }
    }
  }

  /** The expansions of the first templates in some order. */
  ghost function ExpandedUpTo(rules: Rules, templates: map<string, RawTemplate>, order: seq<string>, n: nat)
    : map<string, Json>
    requires n <= |order| && forall id :: id in order ==> id in templates
  {
    if n == 0 then map[]
    else
      var before := ExpandedUpTo(rules, templates, order, n - 1);
      match Expansion(rules, templates, order[n - 1])
      case None => before
      case Some(expanded) => before[order[n - 1] := expanded]
  }

  lemma {:induction false} ExpandedUpToIs(rules: Rules, templates: map<string, RawTemplate>, order: seq<string>, n: nat,
                                          id: string)
    requires n <= |order| && (forall k :: k in order ==> k in templates)
    ensures var all := ExpandedUpTo(rules, templates, order, n);
      && (id in all <==> id in order[..n] && Expansion(rules, templates, id).Some?)
      && (id in all ==> Expansion(rules, templates, id) == Some(all[id]))
  {
    if n > 0 {
      ExpandedUpToIs(rules, templates, order, n - 1, id);
      assert order[..n] == order[..n - 1] + [order[n - 1]];
    }
  }

  /** Resolving the templates one after another, in whatever order, expands each by its definition. */
  method ResolveAll(rules: Rules, templates: map<string, RawTemplate>, order: seq<string>)
    returns (expandedById: map<string, Json>)
    requires forall id :: id in order ==> id in templates
    ensures forall id :: id in expandedById <==> id in order && Expansion(rules, templates, id).Some?
    ensures forall id :: id in expandedById ==> Expansion(rules, templates, id) == Some(expandedById[id])
  {
    var resolver := new TemplateResolver(rules, templates);
    expandedById := resolver.ResolveEach(order);
    AllAreExpanded(rules, templates, order);
  }

  lemma AllAreExpanded(rules: Rules, templates: map<string, RawTemplate>, order: seq<string>)
    requires forall id :: id in order ==> id in templates
    ensures var all := ExpandedUpTo(rules, templates, order, |order|);
      && (forall id :: id in all <==> id in order && Expansion(rules, templates, id).Some?)
      && (forall id :: id in all ==> Expansion(rules, templates, id) == Some(all[id]))
  {
    assert order[..|order|] == order;
    forall id
      ensures var all := ExpandedUpTo(rules, templates, order, |order|);
        && (id in all <==> id in order && Expansion(rules, templates, id).Some?)
        && (id in all ==> Expansion(rules, templates, id) == Some(all[id]))
    {
      ExpandedUpToIs(rules, templates, order, |order|, id);
    }
  }
}
