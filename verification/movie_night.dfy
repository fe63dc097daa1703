/** `movie_night_workflow`: pick three genres, fan out one `recommend_movie` call per
    picked genre, gather the replies in task order, and summarize them once. */
module MovieNight {
  import opened Common
  import opened Text
  import opened PyRandom

  // ---------------------------------------------------------------------------
  // The three activities.

  const Options: seq<string> := ["Action", "Comedy", "Sci-Fi", "Drama", "Horror"]

  /** `pick_genres`: `random.sample(options, 3)` on the generator's three draws. */
  function PickGenres(draws: seq<nat>): (picked: seq<string>)
    requires |draws| == 3 && ValidDraws(|Options|, draws)
    ensures |picked| == 3
    ensures forall i | 0 <= i < 3 :: picked[i] in Options
    ensures Distinct(picked)
  {
    var picked := Sample(Options, draws);
    assert forall i | 0 <= i < 3 :: picked[i] in multiset(Options);
    OptionsDistinct();
    SubMultisetDistinct(picked, Options);
    picked
  }

  lemma OptionsDistinct()
    ensures Distinct(Options)
  {
    forall i, j | 0 <= i < j < |Options| ensures Options[i] != Options[j] {
      assert Options[i][0] != Options[j][0];
    }
  }

  /** Every ordered choice of three different genres is a possible pick: the options
      at any three different positions. */
  lemma PickGenresCoversAll(i: nat, j: nat, k: nat) returns (draws: seq<nat>)
    requires i < |Options| && j < |Options| && k < |Options|
    requires i != j && j != k && i != k
    ensures |draws| == 3 && ValidDraws(|Options|, draws)
    ensures PickGenres(draws) == [Options[i], Options[j], Options[k]]
  {
    var want := [Options[i], Options[j], Options[k]];
    OptionsDistinct();
    draws := SampleReachesDistinct(Options, want);
  }

  /** The `samples` table, with `Unknown` for any other genre. */
  function Title(genre: string): string {
    if genre == "Action" then "Mad Max: Fury Road"
    else if genre == "Comedy" then "The Grand Budapest Hotel"
    else if genre == "Sci-Fi" then "Interstellar"
    else if genre == "Drama" then "The Shawshank Redemption"
    else if genre == "Horror" then "Get Out"
    else "Unknown"
  }

  /** `recommend_movie`: the genre, a colon and a space, then its title. */
  function RecommendMovie(genre: string): (r: string)
    ensures |r| == |genre| + 2 + |Title(genre)|
    ensures r[..|genre|] == genre && r[|genre|..|genre| + 2] == ": "
    ensures r[|genre| + 2..] == Title(genre)
  {
    genre + ": " + Title(genre)
  }

  /** Only the genres outside the table get `Unknown`. */
  lemma TitleUnknown(genre: string)
    ensures Title(genre) == "Unknown" <==> genre !in Options
  {
    if genre in Options {
      assert Title(genre)[0] != 'U';
    }
  }

  /** Different options get different recommendations: they differ in the first letter. */
  lemma RecommendMovieInjective(genre: string, other: string)
    requires genre in Options && other in Options && genre != other
    ensures RecommendMovie(genre) != RecommendMovie(other)
  {
    var i :| 0 <= i < |Options| && Options[i] == genre;
    var j :| 0 <= j < |Options| && Options[j] == other;
    OptionsDistinct();
    assert genre[0] != other[0];
    assert RecommendMovie(genre)[0] == genre[0];
    assert RecommendMovie(other)[0] == other[0];
  }

  /** A listed genre gets its own title and an unlisted one gets `Unknown`; the five
      options get five different recommendations. */
  lemma RecommendMovieTable(genre: string, other: string)
    ensures Title(genre) == "Unknown" <==> genre !in Options
    ensures genre in Options && other in Options ==>
              (RecommendMovie(genre) == RecommendMovie(other) <==> genre == other)
  {
    TitleUnknown(genre);
    if genre in Options && other in Options && genre != other {
      RecommendMovieInjective(genre, other);
    }
  }

  const Header: string := "\U{1F3A5} Movie Night Picks:\n"

  /** `summarize_plan`: the header line, then the recommendations one per line. */
  function SummarizePlan(recommendations: seq<string>): (plan: string)
    ensures |Header| <= |plan| && plan[..|Header|] == Header
    ensures plan[|Header|..] == Join("\n", recommendations)
  {
    Header + Join("\n", recommendations)
  }

  /** The listing reads back: after the header, the lines are the recommendations, as
      long as there is one and none spans two lines. */
  lemma SummaryListsRecommendations(recommendations: seq<string>)
    requires recommendations != []
    requires forall i | 0 <= i < |recommendations| :: '\n' !in recommendations[i]
    ensures Split(SummarizePlan(recommendations)[|Header|..], '\n') == recommendations
  {
    SplitJoin(recommendations, '\n');
  }

  // ---------------------------------------------------------------------------
  // The workflow.

  datatype Call =
    | PickGenresCall
    | RecommendMovieCall(genre: Json)
    | SummarizePlanCall(recommendations: seq<Json>)

  /** The three activities' replies as the workflow sees them, indexed by the call's
      position in the trace. */
  datatype Oracles = Oracles(
    pickGenres: nat -> Json,
    recommendMovie: (nat, Json) -> Json,
    summarizePlan: (nat, seq<Json>) -> Json)

  /** What the comprehension iterates: `genres["genres"]`. A list gives its items; an
      empty str or dict gives nothing; a non-empty str or dict yields strings, and the
      first `g["name"]` on a string raises TypeError before anything is scheduled; any
      other value cannot be subscripted or iterated. */
  function GenreItems(genres: Json): (r: Outcome<seq<Json>>)
    ensures !genres.JObj? ==> r == Failed(TypeError)
    ensures genres.JObj? && "genres" !in genres.members ==> r == Failed(KeyError("genres"))
    ensures genres.JObj? && "genres" in genres.members && genres.members["genres"].JArr? ==>
              r == Completed(genres.members["genres"].items)
    ensures genres.JObj? && "genres" in genres.members && !genres.members["genres"].JArr? ==>
              r == (if genres.members["genres"] == JStr("") || genres.members["genres"] == JObj(map[])
                    then Completed([]) else Failed(TypeError))
  {
    match genres
    case JObj(m) =>
      if "genres" !in m then Failed(KeyError("genres"))
      else
        (match m["genres"]
         case JArr(items) => Completed(items)
         case JStr(s) => if s == "" then Completed([]) else Failed(TypeError)
         case JObj(d) => if d == map[] then Completed([]) else Failed(TypeError)
         case _ => Failed(TypeError))
    case _ => Failed(TypeError)
  }

  /** `g["name"]`. */
  function Name(g: Json): (r: Outcome<Json>)
    ensures g.JObj? && "name" in g.members ==> r == Completed(g.members["name"])
    ensures g.JObj? && "name" !in g.members ==> r == Failed(KeyError("name"))
    ensures !g.JObj? ==> r == Failed(TypeError)
  {
    match g
    case JObj(m) => if "name" in m then Completed(m["name"]) else Failed(KeyError("name"))
    case _ => Failed(TypeError)
  }

  /** The list comprehension from item i on: each item's name is read, then its
      `recommend_movie` call is scheduled; `when_all` hands back the replies in task
      order. */
  function FanOut(o: Oracles, items: seq<Json>, i: nat, calls: seq<Call>, recs: seq<Json>)
    : Run<Call, seq<Json>>
    requires i <= |items|
    decreases |items| - i
  {
    if i == |items| then Run(calls, Completed(recs))
    else
      match Name(items[i])
      case Failed(e) => Run(calls, Failed(e))
      case Completed(genre) =>
        FanOut(o, items, i + 1, calls + [RecommendMovieCall(genre)],
               recs + [o.recommendMovie(|calls|, genre)])
  }

  /** The workflow body. */
  function MovieNightWorkflow(o: Oracles): Run<Call, Json> {
    match GenreItems(o.pickGenres(0))
    case Failed(e) => Run([PickGenresCall], Failed(e))
    case Completed(items) =>
      var fan := FanOut(o, items, 0, [PickGenresCall], []);
      match fan.outcome
      case Failed(e) => Run(fan.calls, Failed(e))
      case Completed(recs) =>
        Run(fan.calls + [SummarizePlanCall(recs)], Completed(o.summarizePlan(|fan.calls|, recs)))
  }

  // ---------------------------------------------------------------------------
  // Reading a trace back.

  /** The pick call, then one recommend call for each of the first k items, each with
      that item's name. */
  ghost predicate ScheduledUpTo(items: seq<Json>, calls: seq<Call>, k: nat) {
    && k <= |items| && |calls| == k + 1 && calls[0] == PickGenresCall
    && forall j | 0 <= j < k ::
         Name(items[j]).Completed? && calls[j + 1] == RecommendMovieCall(Name(items[j]).value)
  }

  /** The gathered replies for the first k items: reply j is what call j + 1 answered. */
  ghost predicate RepliesUpTo(o: Oracles, items: seq<Json>, recs: seq<Json>, k: nat)
  {
    && |recs| == k && k <= |items|
    && forall j | 0 <= j < k ::
         Name(items[j]).Completed? && recs[j] == o.recommendMovie(j + 1, Name(items[j]).value)
  }

  lemma {:induction false} FanOutSpec(o: Oracles, items: seq<Json>, i: nat, calls: seq<Call>,
                                      recs: seq<Json>)
    requires i <= |items|
    requires ScheduledUpTo(items, calls, i) && RepliesUpTo(o, items, recs, i)
    ensures var r := FanOut(o, items, i, calls, recs);
            && (r.outcome.Completed? ==>
                  ScheduledUpTo(items, r.calls, |items|) && RepliesUpTo(o, items, r.outcome.value, |items|))
            && (r.outcome.Failed? ==>
                  exists k | i <= k < |items| ::
                    ScheduledUpTo(items, r.calls, k) && Name(items[k]) == Failed(r.outcome.error))
    decreases |items| - i
  {
    if i < |items| {
      match Name(items[i])
      case Failed(e) =>
        assert ScheduledUpTo(items, calls, i) && Name(items[i]) == Failed(e);
      case Completed(genre) =>
        var calls' := calls + [RecommendMovieCall(genre)];
        var recs' := recs + [o.recommendMovie(|calls|, genre)];
        assert ScheduledUpTo(items, calls', i + 1) by {
          forall j | 0 <= j < i + 1
            ensures Name(items[j]).Completed? && calls'[j + 1] == RecommendMovieCall(Name(items[j]).value)
          {
            if j < i {
              assert calls'[j + 1] == calls[j + 1];
            }
          }
        }
        FanOutSpec(o, items, i + 1, calls', recs');
    }
  }

  /** The pick, fan-out, summarize shape: `pick_genres` first and once; on a genre list,
      one `recommend_movie` call per listed genre, in list order, with that genre's
      name; then `summarize_plan` once, last, with the replies in task order, and its
      reply is the workflow's result. A malformed genre list or genre entry ends the
      run with the error Python raises, after the calls scheduled so far. */
  lemma MovieNightSpec(o: Oracles)
    ensures var r := MovieNightWorkflow(o);
            var items := GenreItems(o.pickGenres(0));
            && |r.calls| > 0 && r.calls[0] == PickGenresCall
            && (items.Failed? ==> r == Run([PickGenresCall], Failed(items.error)))
            && (items.Completed? && r.outcome.Completed? ==>
                  var n := |items.value|;
                  && |r.calls| == n + 2
                  && ScheduledUpTo(items.value, r.calls[..n + 1], n)
                  && r.calls[n + 1].SummarizePlanCall?
                  && RepliesUpTo(o, items.value, r.calls[n + 1].recommendations, n)
                  && r.outcome.value == o.summarizePlan(n + 1, r.calls[n + 1].recommendations))
            && (items.Completed? && r.outcome.Failed? ==>
                  exists k | 0 <= k < |items.value| ::
                    ScheduledUpTo(items.value, r.calls, k) && Name(items.value[k]) == Failed(r.outcome.error))
  {
    var items := GenreItems(o.pickGenres(0));
    if items.Completed? {
      FanOutSpec(o, items.value, 0, [PickGenresCall], []);
      var fan := FanOut(o, items.value, 0, [PickGenresCall], []);
      if fan.outcome.Completed? {
        var n := |items.value|;
        assert (fan.calls + [SummarizePlanCall(fan.outcome.value)])[..n + 1] == fan.calls;
      }
    }
  }

  // ---------------------------------------------------------------------------
  // The workflow with the script's own activities.

  /** The JSON form of a `Genres` model. */
  function GenresJson(names: seq<string>): (j: Json)
    ensures j.JObj? && "genres" in j.members && j.members["genres"].JArr?
    ensures |j.members["genres"].items| == |names|
    ensures forall i | 0 <= i < |names| ::
              j.members["genres"].items[i] == JObj(map["name" := JStr(names[i])])
  {
    JObj(map["genres" := JArr(seq(|names|, i requires 0 <= i < |names| => JObj(map["name" := JStr(names[i])])))])
  }

  /** `[recommend_movie(g) for g in names]`. */
  function Recommendations(names: seq<string>): (recs: seq<string>)
    ensures |recs| == |names|
    ensures forall k | 0 <= k < |names| :: recs[k] == RecommendMovie(names[k])
  {
    seq(|names|, k requires 0 <= k < |names| => RecommendMovie(names[k]))
  }

  /** With the script's own activities behind the calls, a run recommends one film for
      each picked genre, in pick order, and returns the header followed by those
      recommendations. */
  lemma MovieNightWithScriptActivities(o: Oracles, names: seq<string>)
    requires o.pickGenres(0) == GenresJson(names)
    requires forall i: nat, g :: o.recommendMovie(i, JStr(g)) == JStr(RecommendMovie(g))
    requires forall i: nat, recs :: o.summarizePlan(i, Strings(recs)) == JStr(SummarizePlan(recs))
    ensures var r := MovieNightWorkflow(o);
            && |r.calls| == |names| + 2
            && (forall k | 0 <= k < |names| :: r.calls[k + 1] == RecommendMovieCall(JStr(names[k])))
            && r.calls[|names| + 1] == SummarizePlanCall(Strings(Recommendations(names)))
            && r.outcome == Completed(JStr(SummarizePlan(Recommendations(names))))
  {
    var items := GenresJson(names).members["genres"].items;
    assert GenreItems(o.pickGenres(0)) == Completed(items);
    assert forall k | 0 <= k < |items| :: Name(items[k]) == Completed(JStr(names[k]));
    MovieNightSpec(o);
    var r := MovieNightWorkflow(o);
    assert r.outcome.Completed?;
    var n := |names|;
    var sent := r.calls[n + 1].recommendations;
    assert sent == Strings(Recommendations(names)) by {
      forall k | 0 <= k < n ensures sent[k] == JStr(Recommendations(names)[k]) {
        assert sent[k] == o.recommendMovie(k + 1, JStr(names[k]));
      }
    }
    forall k | 0 <= k < n ensures r.calls[k + 1] == RecommendMovieCall(JStr(names[k])) {
      assert r.calls[k + 1] == r.calls[..n + 1][k + 1];
    }
  }

  /** Three different option genres picked: five calls, and the middle three recommend
      those three genres. */
  lemma ThreeGenresThreeRecommendations(o: Oracles, names: seq<string>)
    requires |names| == 3 && Distinct(names) && forall i | 0 <= i < 3 :: names[i] in Options
    requires o.pickGenres(0) == GenresJson(names)
    requires forall i: nat, g :: o.recommendMovie(i, JStr(g)) == JStr(RecommendMovie(g))
    requires forall i: nat, recs :: o.summarizePlan(i, Strings(recs)) == JStr(SummarizePlan(recs))
    ensures var r := MovieNightWorkflow(o);
            && |r.calls| == 5
            && (forall k | 1 <= k < 4 :: r.calls[k] == RecommendMovieCall(JStr(names[k - 1])))
  {
    MovieNightWithScriptActivities(o, names);
    var r := MovieNightWorkflow(o);
    forall k | 1 <= k < 4 ensures r.calls[k] == RecommendMovieCall(JStr(names[k - 1])) {
      assert r.calls[(k - 1) + 1] == RecommendMovieCall(JStr(names[k - 1]));
    }
  }

  /** The script end to end: five calls, of which the middle three recommend the three
      different picked genres. */
  lemma MovieNightPicksThree(o: Oracles, draws: seq<nat>)
    requires |draws| == 3 && ValidDraws(|Options|, draws)
    requires o.pickGenres(0) == GenresJson(PickGenres(draws))
    requires forall i: nat, g :: o.recommendMovie(i, JStr(g)) == JStr(RecommendMovie(g))
    requires forall i: nat, recs :: o.summarizePlan(i, Strings(recs)) == JStr(SummarizePlan(recs))
    ensures var r := MovieNightWorkflow(o);
            && |r.calls| == 5
            && (forall k | 1 <= k < 4 :: r.calls[k].RecommendMovieCall? && r.calls[k].genre.JStr?
                                         && r.calls[k].genre.s in Options)
            && r.calls[1] != r.calls[2] && r.calls[2] != r.calls[3] && r.calls[1] != r.calls[3]
  {
    var p := PickGenres(draws);
    ThreeGenresThreeRecommendations(o, p);
    assert p[0] != p[1] && p[1] != p[2] && p[0] != p[2];
  }
}
