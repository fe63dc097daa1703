/** The prompt-chaining example: the `match_skills` tool and the three-step
    `job_application_workflow`. */
module Chaining {
  import opened Common
  import opened Text

  // ---------------------------------------------------------------------------
  // match_skills

  /** `role_requirements.get(role, [])` over the three known roles. */
  function RoleRequirements(role: string): (reqs: seq<string>)
    ensures role !in KnownRoles ==> reqs == []
    ensures role in KnownRoles ==> |reqs| >= 5
  {
    if role == "software engineer" then ["Python", "JavaScript", "Git", "Cloud", "Teamwork"]
    else if role == "full stack developer" then ["JavaScript", "HTML/CSS", "React", "Node.js", "Python", "Git"]
    else if role == "data analyst" then ["SQL", "Excel", "Visualization", "Statistics", "Python"]
    else []
  }

  const KnownRoles: set<string> := {"software engineer", "full stack developer", "data analyst"}

  /** One skill against one requirement: either lower-cased text contains the other. */
  predicate SkillMatches(skill: string, req: string) {
    Contains(Lower(req), Lower(skill)) || Contains(Lower(skill), Lower(req))
  }

  predicate MatchesSome(skill: string, reqs: seq<string>) {
    exists k | 0 <= k < |reqs| :: SkillMatches(skill, reqs[k])
  }

  /** Reference definition: the skills, in order, that match some requirement. */
  function Kept(skills: seq<string>, reqs: seq<string>): seq<string> {
    if skills == [] then []
    else
      var last := skills[|skills| - 1];
      Kept(skills[..|skills| - 1], reqs) + (if MatchesSome(last, reqs) then [last] else [])
  }

  /** The inner `for req in reqs` loop: does some requirement match the skill? It
      stops at the first one that does. */
  method AnyMatch(skill: string, reqs: seq<string>) returns (found: bool)
    ensures found <==> MatchesSome(skill, reqs)
  {
    found := false;
    var j := 0;
    while j < |reqs|
      invariant 0 <= j <= |reqs|
      invariant !found
      invariant forall k | 0 <= k < j :: !SkillMatches(skill, reqs[k])
    {
      if SkillMatches(skill, reqs[j]) {
        found := true;
        break;
      }
      j := j + 1;
    }
  }

  /** `match_skills(role, skills)`: for each skill, scan the role's requirements and
      keep the skill at the first one it matches. */
  method MatchSkills(role: string, skills: seq<string>) returns (matched: seq<string>)
    ensures matched == Kept(skills, RoleRequirements(Lower(role)))
    ensures Lower(role) !in KnownRoles ==> matched == []
  {
    var reqs := RoleRequirements(Lower(role));
    matched := [];
    for i := 0 to |skills|
      invariant matched == Kept(skills[..i], reqs)
    {
      var skill := skills[i];
      var found := AnyMatch(skill, reqs);
      if found {
        matched := matched + [skill];
      }
      assert skills[..i + 1][..i] == skills[..i];
    }
    assert skills[..|skills|] == skills;
    if Lower(role) !in KnownRoles {
      KeptNone(skills, reqs);
    }
  }

  lemma {:induction false} KeptNone(skills: seq<string>, reqs: seq<string>)
    requires reqs == []
    ensures Kept(skills, reqs) == []
    decreases |skills|
  {
    if skills != [] {
      KeptNone(skills[..|skills| - 1], reqs);
    }
  }

  /** `a` is an order-preserving subsequence of `b`. */
  ghost predicate IsSubsequence<T>(a: seq<T>, b: seq<T>)
    decreases |b|
  {
    if a == [] then true
    else if b == [] then false
    else (a[|a| - 1] == b[|b| - 1] && IsSubsequence(a[..|a| - 1], b[..|b| - 1]))
         || IsSubsequence(a, b[..|b| - 1])
  }

  lemma {:induction false} SubsequenceShorter<T>(a: seq<T>, b: seq<T>)
    requires IsSubsequence(a, b)
    ensures |a| <= |b|
    decreases |b|
  {
    if a != [] {
      if a[|a| - 1] == b[|b| - 1] && IsSubsequence(a[..|a| - 1], b[..|b| - 1]) {
        SubsequenceShorter(a[..|a| - 1], b[..|b| - 1]);
      } else {
        SubsequenceShorter(a, b[..|b| - 1]);
      }
    }
  }

  /** The matched skills keep the input's order and never outnumber it. */
  lemma {:induction false} KeptIsSubsequence(skills: seq<string>, reqs: seq<string>)
    ensures IsSubsequence(Kept(skills, reqs), skills)
    ensures |Kept(skills, reqs)| <= |skills|
    decreases |skills|
  {
    if skills != [] {
      var init := skills[..|skills| - 1];
      KeptIsSubsequence(init, reqs);
      var k := Kept(skills, reqs);
      if MatchesSome(skills[|skills| - 1], reqs) {
        assert k[..|k| - 1] == Kept(init, reqs);
      } else if k != [] {
        assert k == Kept(init, reqs);
      }
    }
    SubsequenceShorter(Kept(skills, reqs), skills);
  }

  /** Each input occurrence is kept at most once, and exactly when it matches some
      requirement: a matching skill keeps its multiplicity, any other skill vanishes. */
  lemma {:induction false} KeptCounts(skills: seq<string>, reqs: seq<string>, x: string)
    ensures multiset(Kept(skills, reqs))[x] == if MatchesSome(x, reqs) then multiset(skills)[x] else 0
    decreases |skills|
  {
    if skills != [] {
      var init := skills[..|skills| - 1];
      KeptCounts(init, reqs, x);
      assert skills == init + [skills[|skills| - 1]];
    }
  }

  /** The role is looked up lower-cased, so its case never matters. */
  lemma RoleCaseInsensitive(role: string, skills: seq<string>)
    ensures Kept(skills, RoleRequirements(Lower(Lower(role))))
            == Kept(skills, RoleRequirements(Lower(role)))
  {
    LowerIdempotent(role);
  }

  // ---------------------------------------------------------------------------
  // job_application_workflow

  datatype UserProfile = UserProfile(role: string, skills: seq<string>, goal: string)

  /** What `extract_user_profile` hands back: the model, or a plain value. */
  datatype ProfileReply = ProfileModel(profile: UserProfile) | ProfileJson(json: Json)

  datatype Call =
    | ExtractUserProfile(userInput: Json)
    | GenerateResumeOutline(profile: Json)
    | WriteCoverLetter(resumeInfo: Json)

  datatype Oracles = Oracles(
    extractUserProfile: (nat, Json) -> ProfileReply,
    generateResumeOutline: (nat, Json) -> Json,
    writeCoverLetter: (nat, Json) -> Json)

  /** `profile.model_dump()`, or the value itself when it has no `model_dump`. */
  function ProfileDict(reply: ProfileReply): Json {
    match reply
    case ProfileModel(p) =>
      JObj(map["role" := JStr(p.role), "skills" := JArr(Strings(p.skills)), "goal" := JStr(p.goal)])
    case ProfileJson(j) => j
  }

  /** `r.get('content', r) if isinstance(r, dict) else r`. */
  function UnwrapContent(r: Json): (v: Json)
    ensures r.JObj? && "content" in r.members ==> v == r.members["content"]
    ensures r.JObj? && "content" !in r.members ==> v == r
    ensures !r.JObj? ==> v == r
  {
    match r
    case JObj(m) => Get(m, "content", r)
    case _ => r
  }

  /** The workflow body: three activities in a fixed order. */
  function JobApplication(o: Oracles, userInput: Json): (r: Run<Call, Json>)
    ensures |r.calls| == 3 && r.outcome.Completed?
    ensures r.calls[0] == ExtractUserProfile(userInput)
    ensures r.calls[1] == GenerateResumeOutline(ProfileDict(o.extractUserProfile(0, userInput)))
    ensures r.calls[2] == WriteCoverLetter(UnwrapContent(o.generateResumeOutline(1, r.calls[1].profile)))
    ensures r.outcome.value == UnwrapContent(o.writeCoverLetter(2, r.calls[2].resumeInfo))
  {
    var profile := ProfileDict(o.extractUserProfile(0, userInput));
    var resumeInfo := UnwrapContent(o.generateResumeOutline(1, profile));
    var letter := UnwrapContent(o.writeCoverLetter(2, resumeInfo));
    Run([ExtractUserProfile(userInput), GenerateResumeOutline(profile), WriteCoverLetter(resumeInfo)],
        Completed(letter))
  }

  /** An agent reply wrapped as `{"content": v}`. */
  function Envelope(v: Json): Json {
    JObj(map["content" := v])
  }

  /** A dict with a `content` entry. */
  predicate HasContent(v: Json) {
    v.JObj? && "content" in v.members
  }

  /** Unwrapping takes exactly one envelope off, and leaves any other reply alone. */
  lemma UnwrapEnvelope(v: Json)
    ensures UnwrapContent(Envelope(v)) == v
    ensures !HasContent(v) ==> UnwrapContent(v) == v
  {
  }

  /** The two agents may answer with the bare value or with it wrapped in a `content`
      envelope: the calls and the letter are the same either way. */
  lemma JobApplicationIgnoresEnvelope(o: Oracles, o': Oracles, userInput: Json)
    requires forall n: nat, x :: o'.extractUserProfile(n, x) == o.extractUserProfile(n, x)
    requires forall n: nat, x :: !HasContent(o.generateResumeOutline(n, x))
                                 && o'.generateResumeOutline(n, x) == Envelope(o.generateResumeOutline(n, x))
    requires forall n: nat, x :: !HasContent(o.writeCoverLetter(n, x))
                                 && o'.writeCoverLetter(n, x) == Envelope(o.writeCoverLetter(n, x))
    ensures JobApplication(o', userInput) == JobApplication(o, userInput)
  {
    var profile := ProfileDict(o.extractUserProfile(0, userInput));
    UnwrapEnvelope(o.generateResumeOutline(1, profile));
    var resumeInfo := UnwrapContent(o.generateResumeOutline(1, profile));
    UnwrapEnvelope(o.writeCoverLetter(2, resumeInfo));
  }
}
