/** `build_learning_path`: three chained activities whose text replies are each run
    through `parse_json_from_response`; the second and third receive the JSON
    serialisation of the previous parsed value. `json.loads` and `json.dumps` are
    parameters. */
module LearningPath {
  import opened Common
  import opened JsonExtraction

  datatype Call =
    | IdentifySubtopics(skill: Json)
    | FindResources(subtopics: string)
    | CreateSchedule(resources: string)

  /** The activities' text replies, indexed by the call's position in the trace. */
  datatype Oracles = Oracles(
    identifySubtopics: (nat, Json) -> string,
    findResources: (nat, string) -> string,
    createSchedule: (nat, string) -> string,
    loads: string -> Option<Json>,
    dumps: Json -> string)

  function BuildLearningPath(o: Oracles, skill: Json): (r: Run<Call, Json>)
    ensures |r.calls| == 3 && r.outcome.Completed?
    ensures r.calls[0] == IdentifySubtopics(skill)
    ensures r.calls[1].FindResources?
              && r.calls[1].subtopics
                 == o.dumps(ParseJsonFromResponse(o.identifySubtopics(0, skill), o.loads))
    ensures r.calls[2].CreateSchedule?
              && r.calls[2].resources
                 == o.dumps(ParseJsonFromResponse(o.findResources(1, r.calls[1].subtopics), o.loads))
    ensures r.outcome.value
            == ParseJsonFromResponse(o.createSchedule(2, r.calls[2].resources), o.loads)
  {
    var subtopics := ParseJsonFromResponse(o.identifySubtopics(0, skill), o.loads);
    var step2 := FindResources(o.dumps(subtopics));
    var resources := ParseJsonFromResponse(o.findResources(1, step2.subtopics), o.loads);
    var step3 := CreateSchedule(o.dumps(resources));
    var schedule := ParseJsonFromResponse(o.createSchedule(2, step3.resources), o.loads);
    Run([IdentifySubtopics(skill), step2, step3], Completed(schedule))
  }

  /** When every agent answers with a fenced JSON block the parser accepts, each step
      receives the serialisation of exactly the value the previous block held, and the
      workflow returns the value of the last block. */
  lemma FencedRepliesChain(o: Oracles, skill: Json, t1: string, t2: string, t3: string,
                           v1: Json, v2: Json, v3: Json)
    requires Bracketed(t1) && Bracketed(t2) && Bracketed(t3)
    requires o.loads(t1) == Some(v1) && o.loads(t2) == Some(v2) && o.loads(t3) == Some(v3)
    requires o.identifySubtopics(0, skill) == FencedBlock(t1)
    requires o.findResources(1, o.dumps(v1)) == FencedBlock(t2)
    requires o.createSchedule(2, o.dumps(v2)) == FencedBlock(t3)
    ensures BuildLearningPath(o, skill)
            == Run([IdentifySubtopics(skill), FindResources(o.dumps(v1)), CreateSchedule(o.dumps(v2))],
                   Completed(v3))
  {
    FencedBlockCandidate(t1);
    FencedBlockCandidate(t2);
    FencedBlockCandidate(t3);
  }
}
