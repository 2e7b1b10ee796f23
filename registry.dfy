/** `Serie.siblings`, the registry of the series created so far, keyed by
    the series id: `Serie.create` registers a series and
    `Serie.getDetailsFromID` looks its details up. */
module Registry {
  import opened Wrappers
  import opened Strings

  /** The series object as the API describes it. */
  datatype Info = Info(id: int, session: string, title: string, episodes: int, poster: string)

  /** `serie.details`. */
  datatype Details = Details(title: string, episodes: int, poster: string)

  /** What `new Serie(info)` keeps of its argument. */
  datatype Serie = Serie(id: int, session: string, details: Details)

  function SerieOf(info: Info): Serie
  {
    Serie(info.id, info.session, Details(info.title, info.episodes, info.poster))
  }

  /** The message of the error `getDetailsFromID` throws. */
  function NotRegistered(id: int): string
  {
    "Couldn't retrieve Serie " + IntText(id) + " from storage"
  }

  class Registry {
    /** `Serie.siblings`. */
    var siblings: map<int, Serie>

    constructor ()
      ensures siblings == map[]
    {
      siblings := map[];
    }

    /** `Serie.getDetailsFromID(id)`: the details of the registered series,
        or the error for an id never registered. */
    function GetDetailsFromID(id: int): (r: Result<Details, string>)
      reads this
      ensures r.Success? <==> id in siblings
      ensures r.Success? ==> r.value == siblings[id].details
      ensures r.Failure? ==> r.error == NotRegistered(id)
    {
      if id in siblings then Success(siblings[id].details) else Failure(NotRegistered(id))
    }

    /** `Serie.create(info)`: registers a new series under its id, replacing
        any series registered under that id before, and returns it. Its
        details can be looked up afterwards; no other lookup changes. */
    method Create(info: Info) returns (serie: Serie)
      modifies this
      ensures serie == SerieOf(info) && siblings == old(siblings)[info.id := serie]
      ensures GetDetailsFromID(info.id) == Success(Details(info.title, info.episodes, info.poster))
      ensures forall id :: id != info.id ==> GetDetailsFromID(id) == old(GetDetailsFromID(id))
    {
      serie := SerieOf(info);
      siblings := siblings[info.id := serie];
    }
  }
}
