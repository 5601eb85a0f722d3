/**
 Deterministic elevation of outbound tools into one-way doors, and the risk
 rule that decides whether a standing approval may answer for an operator
 (packages/agent/src/one-way-door.ts).
 */
module OneWayDoors {

  datatype Door = Door(description: string, kind: string, reversibility: string)

  datatype Step = Step(toolsRequired: seq<string>)

  datatype Plan = Plan(goal: string, steps: seq<Step>, oneWayDoors: seq<Door>)

  const OUTBOUND_VERB_FRAGMENTS: seq<string> := [
    "__send_", "__reply_", "__post_", "__create_draft", "__create_event",
    "__update_event", "__trigger_", "__publish_", "__notify_", "__dispatch_",
    "__deliver_", "__forward_", "__open_pr", "__merge_pr", "__push_file",
    "__create_", "__update_", "__delete_", "__exec", "__upload"]

  /** The deny-list of false positives; the source ships it empty. */
  const OUTBOUND_ALLOWLIST: set<string> := {}

  predicate OccursAt(text: string, part: string, i: nat) {
    i + |part| <= |text| && text[i..i + |part|] == part
  }

  predicate Includes(text: string, part: string) {
    exists i: nat | i <= |text| :: OccursAt(text, part, i)
  }

  predicate IsOutboundChannelTool(toolName: string) {
    && toolName != ""
    && toolName !in OUTBOUND_ALLOWLIST
    && exists frag | frag in OUTBOUND_VERB_FRAGMENTS :: Includes(toolName, frag)
  }

  predicate IsIdentifierChar(c: char) {
    'a' <= c <= 'z' || 'A' <= c <= 'Z' || '0' <= c <= '9' || c == '_'
  }

  /** An occurrence of `tool` at `i` that is not part of a longer identifier. */
  predicate ReferencedAt(description: string, tool: string, i: nat) {
    && OccursAt(description, tool, i)
    && (i == 0 || !IsIdentifierChar(description[i - 1]))
    && (i + |tool| == |description| || !IsIdentifierChar(description[i + |tool|]))
  }

  predicate DescriptionReferencesTool(description: string, tool: string) {
    exists i: nat | i <= |description| :: ReferencedAt(description, tool, i)
  }

  predicate SomeDoorReferences(doors: seq<Door>, tool: string) {
    exists k | 0 <= k < |doors| :: DescriptionReferencesTool(doors[k].description, tool)
  }

  const ELEVATION_PREFIX := "Outbound channel call: "
  const ELEVATION_SUFFIX := " (auto-elevated for safety per ADR 0006)"

  function ElevationDoor(tool: string): Door {
    Door(ELEVATION_PREFIX + tool + ELEVATION_SUFFIX, "external_call",
         "irreversible — outbound communication leaves the system")
  }

  function ElevationDoors(tools: seq<string>): (doors: seq<Door>)
    ensures |doors| == |tools|
    ensures forall k | 0 <= k < |tools| :: doors[k] == ElevationDoor(tools[k])
  {
    seq(|tools|, k requires 0 <= k < |tools| => ElevationDoor(tools[k]))
  }

  function AllTools(steps: seq<Step>): seq<string> {
    if steps == [] then [] else AllTools(steps[..|steps| - 1]) + steps[|steps| - 1].toolsRequired
  }

  /** The outbound tools no existing door names, in order of first appearance. */
  function MissingTools(tools: seq<string>, existing: seq<Door>): seq<string> {
    if tools == [] then [] else
      var earlier := MissingTools(tools[..|tools| - 1], existing);
      var tool := tools[|tools| - 1];
      if IsOutboundChannelTool(tool) && tool !in earlier && !SomeDoorReferences(existing, tool)
      then earlier + [tool] else earlier
  }

  function Elevated(plan: Plan): Plan {
    plan.(oneWayDoors := plan.oneWayDoors + ElevationDoors(MissingTools(AllTools(plan.steps), plan.oneWayDoors)))
  }

  /**
   The nested loops of `elevateOutboundOneWayDoors`, with its `seenTools`. The
   tools added are those some step requires, that contain an outbound verb, and
   that no planner door names as a whole word; each gets one door after the old ones.
   */
  method ElevateOutboundOneWayDoors(plan: Plan) returns (addedTools: seq<string>, oneWayDoors: seq<Door>)
    ensures oneWayDoors == Elevated(plan).oneWayDoors && addedTools == MissingTools(AllTools(plan.steps), plan.oneWayDoors)
    ensures forall tool :: tool in addedTools <==> NeedsDoor(plan, tool)
    ensures forall i, j :: 0 <= i < j < |addedTools| ==> addedTools[i] != addedTools[j]
    ensures plan.oneWayDoors <= oneWayDoors && |oneWayDoors| == |plan.oneWayDoors| + |addedTools|
    ensures forall k :: 0 <= k < |addedTools| ==>
              oneWayDoors[|plan.oneWayDoors| + k]
              == Door("Outbound channel call: " + addedTools[k] + " (auto-elevated for safety per ADR 0006)", "external_call",
                      "irreversible — outbound communication leaves the system")
  {
    var existing := plan.oneWayDoors;
    var seenTools: set<string> := {};
    var added: seq<Door> := [];
    addedTools := [];
    ghost var walked: seq<string> := [];
    for i := 0 to |plan.steps|
      invariant walked == AllTools(plan.steps[..i])
      invariant LoopState(walked, existing, seenTools, addedTools, added)
    {
      var tools := plan.steps[i].toolsRequired;
      ghost var before := walked;
      for j := 0 to |tools|
        invariant walked == before + tools[..j]
        invariant LoopState(walked, existing, seenTools, addedTools, added)
      {
        var tool := tools[j];
        ghost var next := walked + [tool];
        TakeNext(before, tools, j);
        MissingStep(walked, tool, next, existing);
        walked := next;
        if IsOutboundChannelTool(tool) && tool !in seenTools {
          seenTools := seenTools + {tool};
          if !SomeDoorReferences(existing, tool) {
            added := added + [ElevationDoor(tool)];
            addedTools := addedTools + [tool];
          }
        }
      }
      assert tools[..|tools|] == tools;
      AllToolsStep(plan.steps, i);
    }
    assert plan.steps[..|plan.steps|] == plan.steps;
    oneWayDoors := if |added| > 0 then existing + added else existing;
    ElevationExact(plan, addedTools, oneWayDoors);
  }

  ghost predicate LoopState(walked: seq<string>, existing: seq<Door>, seenTools: set<string>,
                            addedTools: seq<string>, added: seq<Door>)
  {
    && addedTools == MissingTools(walked, existing)
    && added == ElevationDoors(addedTools)
    && (forall tool :: tool in addedTools ==> tool in seenTools)
    && (forall tool :: tool in seenTools ==> tool in addedTools || SomeDoorReferences(existing, tool))
  }

  lemma TakeNext(before: seq<string>, tools: seq<string>, j: nat)
    requires j < |tools|
    ensures before + tools[..j] + [tools[j]] == before + tools[..j + 1]
  {
  }

  lemma AllToolsStep(steps: seq<Step>, i: nat)
    requires i < |steps|
    ensures AllTools(steps[..i + 1]) == AllTools(steps[..i]) + steps[i].toolsRequired
  {
    assert steps[..i + 1][..i] == steps[..i];
  }

  lemma MissingStep(walked: seq<string>, tool: string, next: seq<string>, existing: seq<Door>)
    requires next == walked + [tool]
    ensures MissingTools(next, existing)
      == if IsOutboundChannelTool(tool) && tool !in MissingTools(walked, existing) && !SomeDoorReferences(existing, tool)
         then MissingTools(walked, existing) + [tool] else MissingTools(walked, existing)
  {
    assert next[..|walked|] == walked;
  }

  /** Exactly the outbound tools of the plan that no door names, each once. */
  lemma {:induction false} MissingToolsExact(tools: seq<string>, existing: seq<Door>)
    ensures forall tool :: tool in MissingTools(tools, existing) <==>
              tool in tools && IsOutboundChannelTool(tool) && !SomeDoorReferences(existing, tool)
    ensures forall i, j :: 0 <= i < j < |MissingTools(tools, existing)| ==>
              MissingTools(tools, existing)[i] != MissingTools(tools, existing)[j]
  {
    if tools != [] {
      MissingToolsExact(tools[..|tools| - 1], existing);
      assert tools == tools[..|tools| - 1] + [tools[|tools| - 1]];
    }
  }

  // ── On texts ──────────────────────────────────────────────────────────────

  /** `text` is x, the tool, y, and neither neighbour is a letter, a digit or an underscore. */
  predicate StandsAlone(text: string, x: string, tool: string, y: string) {
    && text == x + tool + y
    && (x != "" ==> var c := x[|x| - 1]; (c < '0' || '9' < c) && (c < 'A' || 'Z' < c) && c != '_' && (c < 'a' || 'z' < c))
    && (y != "" ==> var c := y[0]; (c < '0' || '9' < c) && (c < 'A' || 'Z' < c) && c != '_' && (c < 'a' || 'z' < c))
  }

  ghost predicate ContainsVerb(tool: string, x: string, frag: string, y: string) {
    frag in OUTBOUND_VERB_FRAGMENTS && tool == x + frag + y
  }

  lemma OccursBetween(text: string, part: string, i: nat)
    requires OccursAt(text, part, i)
    ensures text == text[..i] + part + text[i + |part|..]
  {
  }

  lemma OccursAfter(x: string, part: string, y: string)
    ensures OccursAt(x + part + y, part, |x|)
  {
    assert (x + part + y)[|x|..|x| + |part|] == part;
  }

  /** A description names a tool exactly when the tool stands in it as a whole word. */
  lemma ReferenceIsWholeWord(description: string, tool: string)
    ensures DescriptionReferencesTool(description, tool) <==> exists x, y :: StandsAlone(description, x, tool, y)
  {
    if i: nat :| i <= |description| && ReferencedAt(description, tool, i) {
      OccursBetween(description, tool, i);
      assert StandsAlone(description, description[..i], tool, description[i + |tool|..]);
    }
    if x, y :| StandsAlone(description, x, tool, y) {
      OccursAfter(x, tool, y);
      assert ReferencedAt(description, tool, |x|);
    }
  }

  /** An outbound tool is one whose name contains one of the verb fragments. */
  lemma OutboundContainsVerb(tool: string)
    ensures IsOutboundChannelTool(tool) <==> exists x, frag, y :: ContainsVerb(tool, x, frag, y)
  {
    if IsOutboundChannelTool(tool) {
      var frag :| frag in OUTBOUND_VERB_FRAGMENTS && Includes(tool, frag);
      var i: nat :| i <= |tool| && OccursAt(tool, frag, i);
      OccursBetween(tool, frag, i);
      assert ContainsVerb(tool, tool[..i], frag, tool[i + |frag|..]);
    }
    if x, frag, y :| ContainsVerb(tool, x, frag, y) {
      OccursAfter(x, frag, y);
      assert frag != "" && Includes(tool, frag);
    }
  }

  /** Any provider's action with one of the twenty verbs is outbound. */
  lemma VerbsAreOutbound(provider: string, verb: string, rest: string)
    requires verb in {"__send_", "__reply_", "__post_", "__create_draft", "__create_event", "__update_event", "__trigger_",
                      "__publish_", "__notify_", "__dispatch_", "__deliver_", "__forward_", "__open_pr", "__merge_pr",
                      "__push_file", "__create_", "__update_", "__delete_", "__exec", "__upload"}
    ensures IsOutboundChannelTool(provider + verb + rest)
  {
    assert ContainsVerb(provider + verb + rest, provider, verb, rest);
    OutboundContainsVerb(provider + verb + rest);
  }

  lemma {:induction false} InAllTools(steps: seq<Step>, tool: string)
    ensures tool in AllTools(steps) <==> exists step :: step in steps && tool in step.toolsRequired
  {
    if steps != [] {
      InAllTools(steps[..|steps| - 1], tool);
      assert steps == steps[..|steps| - 1] + [steps[|steps| - 1]];
    }
  }

  ghost predicate NeedsDoor(plan: Plan, tool: string) {
    && (exists step :: step in plan.steps && tool in step.toolsRequired)
    && (exists x, frag, y :: ContainsVerb(tool, x, frag, y))
    && (forall door, x, y :: door in plan.oneWayDoors ==> !StandsAlone(door.description, x, tool, y))
  }

  lemma AddedExactly(plan: Plan, tool: string)
    ensures tool in MissingTools(AllTools(plan.steps), plan.oneWayDoors) <==> NeedsDoor(plan, tool)
  {
    MissingToolsExact(AllTools(plan.steps), plan.oneWayDoors);
    InAllTools(plan.steps, tool);
    OutboundContainsVerb(tool);
    forall k | 0 <= k < |plan.oneWayDoors|
      ensures DescriptionReferencesTool(plan.oneWayDoors[k].description, tool)
        <==> exists x, y :: StandsAlone(plan.oneWayDoors[k].description, x, tool, y)
    {
      ReferenceIsWholeWord(plan.oneWayDoors[k].description, tool);
    }
  }

  lemma ElevationExact(plan: Plan, addedTools: seq<string>, oneWayDoors: seq<Door>)
    requires addedTools == MissingTools(AllTools(plan.steps), plan.oneWayDoors)
    requires oneWayDoors == Elevated(plan).oneWayDoors
    ensures forall tool :: tool in addedTools <==> NeedsDoor(plan, tool)
    ensures forall i, j :: 0 <= i < j < |addedTools| ==> addedTools[i] != addedTools[j]
    ensures plan.oneWayDoors <= oneWayDoors && |oneWayDoors| == |plan.oneWayDoors| + |addedTools|
    ensures forall k :: 0 <= k < |addedTools| ==> oneWayDoors[|plan.oneWayDoors| + k] == ElevationDoor(addedTools[k])
  {
    MissingToolsExact(AllTools(plan.steps), plan.oneWayDoors);
    forall tool
      ensures tool in addedTools <==> NeedsDoor(plan, tool)
    {
      AddedExactly(plan, tool);
    }
  }

  lemma {:induction false} AllToolsConcat(first: seq<Step>, later: seq<Step>)
    ensures AllTools(first + later) == AllTools(first) + AllTools(later)
    decreases |later|
  {
    if later == [] {
      assert first + later == first;
    } else {
      var init, last := later[..|later| - 1], later[|later| - 1];
      AllToolsConcat(first, init);
      assert (first + later)[..|first + later| - 1] == first + init;
      assert AllTools(first + later) == (AllTools(first) + AllTools(init)) + last.toolsRequired;
    }
  }

  lemma {:induction false} MissingGrows(tools: seq<string>, more: seq<string>, existing: seq<Door>)
    ensures MissingTools(tools, existing) <= MissingTools(tools + more, existing)
    decreases |more|
  {
    if more == [] {
      assert tools + more == tools;
    } else {
      MissingGrows(tools, more[..|more| - 1], existing);
      assert (tools + more)[..|tools + more| - 1] == tools + more[..|more| - 1];
    }
  }

  /** Order of first appearance: wherever a plan is cut, what is added for the part before comes first. */
  lemma AddedInOrder(first: seq<Step>, seen: seq<string>, unseen: seq<string>, later: seq<Step>, existing: seq<Door>)
    ensures MissingTools(AllTools(first + [Step(seen)]), existing)
         <= MissingTools(AllTools(first + [Step(seen + unseen)] + later), existing)
  {
    AllToolsConcat(first, [Step(seen)]);
    AllToolsConcat(first + [Step(seen + unseen)], later);
    AllToolsConcat(first, [Step(seen + unseen)]);
    assert [Step(seen)][..0] == [] && [Step(seen + unseen)][..0] == [];
    assert AllTools(first + [Step(seen + unseen)] + later) == AllTools(first + [Step(seen)]) + (unseen + AllTools(later));
    MissingGrows(AllTools(first + [Step(seen)]), unseen + AllTools(later), existing);
  }

  /** A synthesized door names its own tool on identifier boundaries. */
  lemma ElevationDoorNamesTool(tool: string)
    ensures DescriptionReferencesTool(ElevationDoor(tool).description, tool)
  {
    var d := ElevationDoor(tool).description;
    var i := |ELEVATION_PREFIX|;
    assert d == ELEVATION_PREFIX + (tool + ELEVATION_SUFFIX);
    assert d[i..i + |tool|] == tool;
    assert d[i - 1] == ELEVATION_PREFIX[i - 1] == ' ';
    assert d[i + |tool|] == ELEVATION_SUFFIX[0] == ' ';
    assert ReferencedAt(d, tool, i);
  }

  /** Every outbound tool of the plan is named by some door. */
  ghost predicate Covered(plan: Plan) {
    forall tool :: tool in AllTools(plan.steps) && IsOutboundChannelTool(tool) ==>
      SomeDoorReferences(plan.oneWayDoors, tool)
  }

  lemma ElevationCovers(plan: Plan)
    ensures Covered(Elevated(plan))
    ensures plan.oneWayDoors <= Elevated(plan).oneWayDoors
    ensures Elevated(plan).steps == plan.steps
  {
    var missing := MissingTools(AllTools(plan.steps), plan.oneWayDoors);
    forall tool | tool in AllTools(plan.steps) && IsOutboundChannelTool(tool)
      ensures SomeDoorReferences(Elevated(plan).oneWayDoors, tool)
    {
      MissingToolsExact(AllTools(plan.steps), plan.oneWayDoors);
      AppendedDoorsReference(plan.oneWayDoors, missing, tool);
    }
  }

  lemma AppendedDoorsReference(existing: seq<Door>, missing: seq<string>, tool: string)
    requires SomeDoorReferences(existing, tool) || tool in missing
    ensures SomeDoorReferences(existing + ElevationDoors(missing), tool)
  {
    var doors := existing + ElevationDoors(missing);
    if k: int :| 0 <= k < |existing| && DescriptionReferencesTool(existing[k].description, tool) {
      assert doors[k] == existing[k];
    } else {
      var k :| 0 <= k < |missing| && missing[k] == tool;
      ElevationDoorNamesTool(tool);
      assert doors[|existing| + k] == ElevationDoors(missing)[k];
    }
  }

  /** A plan needs no elevation exactly when it is already covered; elevating twice adds nothing. */
  lemma ElevationFixpoint(plan: Plan)
    ensures Elevated(plan) == plan <==> Covered(plan)
    ensures Elevated(Elevated(plan)) == Elevated(plan)
  {
    ElevationFixpointIffCovered(plan);
    ElevationCovers(plan);
    ElevationFixpointIffCovered(Elevated(plan));
  }

  lemma ElevationFixpointIffCovered(plan: Plan)
    ensures Elevated(plan) == plan <==> Covered(plan)
  {
    var missing := MissingTools(AllTools(plan.steps), plan.oneWayDoors);
    MissingToolsExact(AllTools(plan.steps), plan.oneWayDoors);
    assert missing != [] ==> missing[0] in missing;
    if Covered(plan) {
      assert Elevated(plan).oneWayDoors == plan.oneWayDoors;
    }
    if Elevated(plan) == plan {
      assert |missing| == 0;
      assert forall tool :: tool !in missing;
    }
  }

  // ── The CONFIRM gate ──────────────────────────────────────────────────────

  datatype RiskLevel = Low | Medium | High | Critical

  predicate MustGate(plan: Plan, requireApprovalForGeneralTasks: bool) {
    |plan.oneWayDoors| > 0 || requireApprovalForGeneralTasks
  }

  function GateRisk(plan: Plan): RiskLevel {
    if |plan.oneWayDoors| > 0 then High else Medium
  }

  /** `requestApproval` looks at standing approvals only below 'high' risk. */
  predicate StandingApprovalAnswers(risk: RiskLevel, unexpiredMatch: bool) {
    risk != High && risk != Critical && unexpiredMatch
  }

  /**
   Whatever the planner says, the workspace policy is, and standing approvals
   exist: a plan that uses an outbound tool is gated, and only an operator can
   let it through.
   */
  lemma OutboundPlanAlwaysGated(plan: Plan, tool: string, policy: bool, standing: bool)
    requires tool in AllTools(plan.steps) && IsOutboundChannelTool(tool)
    ensures MustGate(Elevated(plan), policy)
    ensures GateRisk(Elevated(plan)) == High
    ensures !StandingApprovalAnswers(GateRisk(Elevated(plan)), standing)
  {
    ElevationCovers(plan);
    assert SomeDoorReferences(Elevated(plan).oneWayDoors, tool);
  }
}
