/** The `recommend_books` tool shared by the book-recommender agents: a fixed shelf of
    two books for each of three genres, looked up by the lower-cased genre. */
module Books {
  import opened Text

  datatype BookRecommendation = BookRecommendation(title: string, author: string)

  const Genres: set<string> := {"sci-fi", "fantasy", "mystery"}

  /** The `mock_db` entry of a genre it lists. */
  function Shelf(genre: string): (books: seq<BookRecommendation>)
    requires genre in Genres
  {
    if genre == "sci-fi" then
      [BookRecommendation("Dune", "Frank Herbert"),
       BookRecommendation("Neuromancer", "William Gibson")]
    else if genre == "fantasy" then
      [BookRecommendation("The Name of the Wind", "Patrick Rothfuss"),
       BookRecommendation("Mistborn", "Brandon Sanderson")]
    else
      [BookRecommendation("Gone Girl", "Gillian Flynn"),
       BookRecommendation("The Girl with the Dragon Tattoo", "Stieg Larsson")]
  }

  /** `recommend_books(genre)`: `mock_db.get(genre.lower(), [])`. */
  function RecommendBooks(genre: string): (r: seq<BookRecommendation>)
    ensures Lower(genre) in Genres ==> r == Shelf(Lower(genre))
    ensures r == [] <==> Lower(genre) !in Genres
    ensures |r| == 0 || |r| == 2
  {
    if Lower(genre) in Genres then Shelf(Lower(genre)) else []
  }

  /** Asking in another letter case gives the same books. */
  lemma RecommendBooksIgnoresCase(genre: string)
    ensures RecommendBooks(Lower(genre)) == RecommendBooks(genre)
  {
    LowerIdempotent(genre);
  }

  /** No book sits on two shelves: the genre a recommended book came from is determined
      by the book. */
  lemma ShelvesAreDisjoint(g: string, h: string, b: BookRecommendation)
    requires g in Genres && h in Genres
    requires b in Shelf(g) && b in Shelf(h)
    ensures g == h
  {
  }
}
