/** The movie page of the router exercise: it picks the first movie whose id,
    written as a string, equals the route parameter, and sends the browser
    home when there is none. */
module MovieDetails {
  import opened Wrappers

  /** A movie id as the data file may hold it: a whole number or a string. */
  datatype MovieId = NumericId(n: int) | TextId(s: string)

  datatype Movie = Movie(id: MovieId, title: string, description: string)

  function DigitChar(d: nat): char
    requires d < 10
  {
    ('0' as int + d) as char
  }

  /** The decimal digits of `n`, most significant first, without leading zeros. */
  function Decimal(n: nat): string
    decreases n
  {
    if n < 10 then [DigitChar(n)] else Decimal(n / 10) + [DigitChar(n % 10)]
  }

  /** `toString()` of an integer. */
  function IntToString(n: int): string
  {
    if n < 0 then "-" + Decimal(-n) else Decimal(n)
  }

  /** `id.toString()`: the decimal form of a number, a string as it is. */
  function IdToString(id: MovieId): string
  {
    match id
    case NumericId(n) => IntToString(n)
    case TextId(s) => s
  }

  lemma {:induction false} DecimalStartsWithDigit(n: nat)
    ensures |Decimal(n)| >= 1
    ensures '0' <= Decimal(n)[0] <= '9'
    ensures n >= 10 ==> |Decimal(n)| >= 2
    decreases n
  {
    if n >= 10 {
      DecimalStartsWithDigit(n / 10);
    }
  }

  lemma {:induction false} DecimalInjective(a: nat, b: nat)
    requires Decimal(a) == Decimal(b)
    ensures a == b
    decreases a
  {
    DecimalStartsWithDigit(a);
    DecimalStartsWithDigit(b);
    if a >= 10 && b >= 10 {
      var da, db := Decimal(a), Decimal(b);
      assert DigitChar(a % 10) == da[|da| - 1] == db[|db| - 1] == DigitChar(b % 10);
      assert da[..|da| - 1] == Decimal(a / 10);
      assert db[..|db| - 1] == Decimal(b / 10);
      DecimalInjective(a / 10, b / 10);
    }
  }

  /** Distinct integers have distinct string forms, so a numeric id matches
      exactly one parameter string. */
  lemma IntToStringInjective(a: int, b: int)
    ensures IntToString(a) == IntToString(b) <==> a == b
  {
    if IntToString(a) == IntToString(b) {
      DecimalStartsWithDigit(if a < 0 then -a else a);
      DecimalStartsWithDigit(if b < 0 then -b else b);
      if a < 0 && b < 0 {
        assert IntToString(a)[1..] == Decimal(-a);
        assert IntToString(b)[1..] == Decimal(-b);
        DecimalInjective(-a, -b);
      } else if a >= 0 && b >= 0 {
        DecimalInjective(a, b);
      } else {
        assert false;
      }
    }
  }

  /** The predicate given to `find`. */
  predicate Matches(movie: Movie, param: string)
  {
    IdToString(movie.id) == param
  }

  /** A numeric id matches its own decimal string and no other number's;
      for instance id 3 matches "3". */
  lemma NumericIdMatchesItsDecimal(movie: Movie, k: int)
    requires movie.id.NumericId?
    ensures Matches(movie, IntToString(k)) <==> movie.id.n == k
    ensures Matches(movie.(id := NumericId(3)), "3")
  {
    IntToStringInjective(movie.id.n, k);
  }

  /** `i` is the position of the first movie matching `param`. */
  predicate FirstMatch(movies: seq<Movie>, param: string, i: nat)
  {
    && i < |movies|
    && Matches(movies[i], param)
    && forall j :: 0 <= j < i ==> !Matches(movies[j], param)
  }

  /** `movies.find(...)`, as the position of the element it returns. */
  function FindIndex(movies: seq<Movie>, param: string): (r: Option<nat>)
    ensures r.Some? ==> FirstMatch(movies, param, r.value)
    ensures r.None? ==> forall j :: 0 <= j < |movies| ==> !Matches(movies[j], param)
    decreases |movies|
  {
    if movies == [] then None
    else if Matches(movies[0], param) then Some(0)
    else match FindIndex(movies[1..], param)
      case None => None
      case Some(i) => Some(i + 1)
  }

  /** What the component renders: the chosen movie's title and description,
      or a redirect. */
  datatype MovieView = Details(title: string, description: string) | RedirectTo(path: string)

  /** `MovieDetails(props)` for the route parameter `param`. */
  function Render(movies: seq<Movie>, param: string): (v: MovieView)
    ensures v.RedirectTo? <==> forall j :: 0 <= j < |movies| ==> !Matches(movies[j], param)
    ensures v.RedirectTo? ==> v.path == "/"
    ensures v.Details? ==>
      exists i: nat :: FirstMatch(movies, param, i) && v == Details(movies[i].title, movies[i].description)
  {
    match FindIndex(movies, param)
    case None => RedirectTo("/")
    case Some(i) => Details(movies[i].title, movies[i].description)
  }
}
