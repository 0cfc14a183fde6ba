/**
 * `GET` and `POST /api/agenda` (app/api/agenda/route.ts) over the user and
 * agenda tables. GET lists every agenda by date ascending; POST checks title
 * and date, resolves an owner (the first user, or a newly inserted default
 * user) and inserts one agenda.
 */
module Agendas {
  import opened Wrappers

  datatype User = User(id: nat, name: string, email: string)

  /** A stored agenda; `date` is the parsed instant (milliseconds since the epoch). */
  datatype Agenda = Agenda(
    id: nat,
    title: string,
    description: Option<string>,
    date: int,
    image: Option<string>,
    userId: nat)

  /**
   * The JSON body of a POST. `Unparsable` is a body that is not JSON or is
   * JSON `null`: both make the destructuring `const { title, ... } = ...`
   * throw. Any other body gives the fields it carries, `None` when absent
   * (a number or a string body carries none).
   */
  datatype Body =
    | Unparsable
    | Fields(title: Option<string>, description: Option<string>, date: Option<string>, image: Option<string>)

  datatype Reply =
    | AgendaList(agendas: seq<Agenda>)
    | AgendaJson(agenda: Agenda)
    | Error(error: string)

  datatype Response = Response(status: int, reply: Reply)

  /** A storage call that throws. */
  datatype Fault = NoFault | LookupFails | UserInsertFails | AgendaInsertFails

  const ListError := "Erro ao buscar agendas"
  const MissingFields := "Título e data são obrigatórios"
  const CreateError := "Erro ao criar agenda"
  const DefaultUserName := "Default User"
  const DefaultUserEmail := "default@example.com"

  /** JavaScript truthiness of an optional string: present and non-empty. */
  predicate Truthy(f: Option<string>) {
    f.Some? && f.value != ""
  }

  // ---- GET: ordering by date -------------------------------------------------

  predicate SortedByDate(s: seq<Agenda>) {
    forall i, j :: 0 <= i < j < |s| ==> s[i].date <= s[j].date
  }

  /** Putting an agenda no later than the head in front keeps a list sorted. */
  lemma SortedCons(x: Agenda, s: seq<Agenda>)
    requires SortedByDate(s) && (s == [] || x.date <= s[0].date)
    ensures SortedByDate([x] + s)
  {
    var r := [x] + s;
    forall i, j | 0 <= i < j < |r|
      ensures r[i].date <= r[j].date
    {
      if i > 0 {
        assert r[i] == s[i - 1] && r[j] == s[j - 1];
      } else {
        assert r[j] == s[j - 1] && s[0].date <= s[j - 1].date;
      }
    }
  }

  /** The head of a sorted list, put back in front of the insertion into its tail. */
  lemma InsertAfterHead(a: Agenda, s: seq<Agenda>, rest: seq<Agenda>)
    requires SortedByDate(s) && s != [] && s[0].date < a.date
    requires SortedByDate(rest) && multiset(rest) == multiset(s[1..]) + multiset{a}
    requires rest != [] && (rest[0] == a || (|s| > 1 && rest[0] == s[1]))
    ensures SortedByDate([s[0]] + rest)
    ensures multiset([s[0]] + rest) == multiset(s) + multiset{a}
  {
    SortedCons(s[0], rest);
    assert s == [s[0]] + s[1..];
  }

  /** Puts `a` into a date-sorted list, before the first later agenda. */
  function Insert(a: Agenda, s: seq<Agenda>): (r: seq<Agenda>)
    requires SortedByDate(s)
    ensures SortedByDate(r)
    ensures multiset(r) == multiset(s) + multiset{a}
    ensures |r| == |s| + 1
    ensures r[0] == a || (s != [] && r[0] == s[0])
  {
    if s == [] || a.date <= s[0].date then
      SortedCons(a, s);
      [a] + s
    else
      var rest := Insert(a, s[1..]);
      InsertAfterHead(a, s, rest);
      [s[0]] + rest
  }

  /** `findMany({ orderBy: { date: 'asc' } })`: the same agendas, by date ascending. */
  function SortByDate(s: seq<Agenda>): (r: seq<Agenda>)
    ensures SortedByDate(r)
    ensures multiset(r) == multiset(s)
    ensures |r| == |s|
  {
    if s == [] then []
    else
      assert s == [s[0]] + s[1..];
      Insert(s[0], SortByDate(s[1..]))
  }

  // ---- the tables ------------------------------------------------------------

  class AgendaDb {
    var users: seq<User>
    var agendas: seq<Agenda>
    var nextUserId: nat
    var nextAgendaId: nat

    function UserIds(): set<nat>
      reads this
    {
      set u | u in users :: u.id
    }

    /** Ids are below the counters, and every agenda's owner is a stored user. */
    ghost predicate Valid()
      reads this
    {
      && (forall u :: u in users ==> u.id < nextUserId)
      && (forall a :: a in agendas ==> a.id < nextAgendaId && a.userId in UserIds())
    }

    constructor ()
      ensures Valid() && users == [] && agendas == []
    {
      users := [];
      agendas := [];
      nextUserId := 0;
      nextAgendaId := 0;
    }
  }

  /** The handler `GET`: every stored agenda, sorted by date ascending. */
  method Get(db: AgendaDb, fault: bool) returns (resp: Response)
    ensures fault ==> resp == Response(500, Error(ListError))
    ensures !fault ==> resp.status == 200 && resp.reply.AgendaList?
    ensures !fault ==> SortedByDate(resp.reply.agendas)
    ensures !fault ==> multiset(resp.reply.agendas) == multiset(db.agendas)
  {
    if fault {
      return Response(500, Error(ListError));
    }
    resp := Response(200, AgendaList(SortByDate(db.agendas)));
  }

  /** The handler `POST`. `parseDate` stands for `new Date(date)`; `None` is an invalid date, which the insert rejects. */
  method Post(db: AgendaDb, body: Body, parseDate: string -> Option<int>, fault: Fault) returns (resp: Response)
    requires db.Valid()
    modifies db
    ensures db.Valid()
    ensures resp.status in {201, 400, 500}
    // nothing is read or written before the body is known to carry a title and a date
    ensures body.Unparsable? ==>
      resp == Response(500, Error(CreateError)) && db.users == old(db.users) && db.agendas == old(db.agendas)
    ensures body.Fields? && !(Truthy(body.title) && Truthy(body.date)) ==>
      resp == Response(400, Error(MissingFields)) && db.users == old(db.users) && db.agendas == old(db.agendas)
    ensures body.Fields? && Truthy(body.title) && Truthy(body.date) ==>
      if fault == LookupFails || (old(db.users) == [] && fault == UserInsertFails) then
        resp == Response(500, Error(CreateError)) && db.users == old(db.users) && db.agendas == old(db.agendas)
      else
        // the owner: the first user, or the default user inserted now
        && db.users == (if old(db.users) == [] then [User(old(db.nextUserId), DefaultUserName, DefaultUserEmail)]
                        else old(db.users))
        && if fault == AgendaInsertFails || parseDate(body.date.value).None? then
             resp == Response(500, Error(CreateError)) && db.agendas == old(db.agendas)
           else
             var a := Agenda(old(db.nextAgendaId), body.title.value, body.description,
                             parseDate(body.date.value).value, None, db.users[0].id);
             resp == Response(201, AgendaJson(a)) && db.agendas == old(db.agendas) + [a]
  {
    if body.Unparsable? {
      return Response(500, Error(CreateError));
    }
    if !Truthy(body.title) || !Truthy(body.date) {
      return Response(400, Error(MissingFields));
    }
    if fault == LookupFails {
      return Response(500, Error(CreateError));
    }
    var owner: User;
    if db.users == [] {
      if fault == UserInsertFails {
        return Response(500, Error(CreateError));
      }
      owner := User(db.nextUserId, DefaultUserName, DefaultUserEmail);
      db.users := db.users + [owner];
      db.nextUserId := db.nextUserId + 1;
    } else {
      owner := db.users[0];
    }
    var when := parseDate(body.date.value);
    if fault == AgendaInsertFails || when.None? {
      return Response(500, Error(CreateError));
    }
    var a := Agenda(db.nextAgendaId, body.title.value, body.description, when.value, None, owner.id);
    db.agendas := db.agendas + [a];
    db.nextAgendaId := db.nextAgendaId + 1;
    resp := Response(201, AgendaJson(a));
  }

  /** A created agenda is owned by a stored user, and `image` in the body is never stored. */
  method CreatedAgendaHasOwner(db: AgendaDb, title: string, date: string, image: Option<string>, parseDate: string -> Option<int>)
    requires db.Valid() && title != "" && date != "" && parseDate(date).Some?
    modifies db
  {
    var resp := Post(db, Fields(Some(title), None, Some(date), image), parseDate, NoFault);
    assert resp.status == 201;
    assert resp.reply.agenda.userId in db.UserIds();
    assert resp.reply.agenda.image == None;
    assert |db.users| >= 1;
  }
}
