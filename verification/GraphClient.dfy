/** The graph client: upserts through a cache of known entities that may be stale. */
module GraphClients {

  /** What one request meets: what others do to the server before it is served, and
      whether it is served and answered. */
  datatype Turn<!E> = Turn(disturb: map<string, E> -> map<string, E>, fate: Fate)

  datatype Fate = Served | Dropped | ReplyLost

  datatype Projection<T> = Projection(entity: string, triples: seq<T>)

  datatype Reply = Done | EntityExists | EntityNotFound | Failed

  datatype UpsertError = NilEntity | NoTriples | RequestFailed | NotFound

  datatype UpsertResult = Written(created: bool) | Error(error: UpsertError)

  /** The server: what creating and updating make of an entity is its own affair. */
  class GraphServer<E, T> {
    const makeNew: Projection<T> -> E
    const amend: (E, Projection<T>) -> E
    var entities: map<string, E>

    constructor (create: Projection<T> -> E, update: (E, Projection<T>) -> E)
      ensures makeNew == create && amend == update && entities == map[]
    {
      makeNew, amend, entities := create, update, map[];
    }

    /** A server write that does not depend on any cache. */
    function Upserted(p: Projection<T>): map<string, E>
      reads this
    {
      entities[p.entity := if p.entity in entities then amend(entities[p.entity], p) else makeNew(p)]
    }

    /** The write was served on this state of the server and led to that one. */
    ghost predicate Applied(seen: map<string, E>, p: Projection<T>, created: bool, after: map<string, E>) {
      if created then p.entity !in seen && after == seen[p.entity := makeNew(p)]
      else p.entity in seen && after == seen[p.entity := amend(seen[p.entity], p)]
    }

    method Create(p: Projection<T>, turn: Turn<E>) returns (reply: Reply)
      modifies this`entities
      ensures var seen := turn.disturb(old(entities));
              if turn.fate.Dropped? then entities == seen && reply == Failed
              else
                && entities == (if p.entity in seen then seen else seen[p.entity := makeNew(p)])
                && reply == (if turn.fate.ReplyLost? then Failed
                             else if p.entity in seen then EntityExists else Done)
    {
      entities := turn.disturb(entities);
      if turn.fate.Dropped? { return Failed; }
      reply := if p.entity in entities then EntityExists else Done;
      if reply == Done { entities := entities[p.entity := makeNew(p)]; }
      if turn.fate.ReplyLost? { reply := Failed; }
    }

    method Update(p: Projection<T>, turn: Turn<E>) returns (reply: Reply)
      modifies this`entities
      ensures var seen := turn.disturb(old(entities));
              if turn.fate.Dropped? then entities == seen && reply == Failed
              else
                && entities == (if p.entity in seen then seen[p.entity := amend(seen[p.entity], p)] else seen)
                && reply == (if turn.fate.ReplyLost? then Failed
                             else if p.entity in seen then Done else EntityNotFound)
    {
      entities := turn.disturb(entities);
      if turn.fate.Dropped? { return Failed; }
      reply := if p.entity in entities then Done else EntityNotFound;
      if reply == Done { entities := entities[p.entity := amend(entities[p.entity], p)]; }
      if turn.fate.ReplyLost? { reply := Failed; }
    }
  }

  ghost predicate QuietTurn<E(!new)>(turn: Turn<E>) {
    turn.fate.Served? && forall m :: turn.disturb(m) == m
  }

  ghost predicate Quiet<E(!new)>(env: nat -> Turn<E>) {
    forall i :: QuietTurn(env(i))
  }

  /** The state that the n-th request from at meets, if the ones before it change nothing. */
  function Met<E>(env: nat -> Turn<E>, at: nat, n: nat, before: map<string, E>): map<string, E> {
    if n == 0 then before else env(at + n - 1).disturb(Met(env, at, n - 1, before))
  }

  lemma {:induction false} MetLater<E>(env: nat -> Turn<E>, at: nat, n: nat, before: map<string, E>)
    ensures Met(env, at, n + 1, before) == Met(env, at + 1, n, env(at).disturb(before))
  {
    if n > 0 { MetLater(env, at, n - 1, before); }
  }

  class GraphClient<E(!new), T> {
    const server: GraphServer<E, T>
    var known: set<string>

    constructor (s: GraphServer<E, T>)
      ensures server == s && known == {}
    {
      server, known := s, {};
    }

    /** The last request was not served or not answered: it may have written, once. */
    ghost predicate Unsure(seen: map<string, E>, p: Projection<T>, turn: Turn<E>)
      reads this, server
    {
      && !turn.fate.Served?
      && (server.entities == seen
          || (turn.fate.ReplyLost?
              && (server.Applied(seen, p, true, server.entities) || server.Applied(seen, p, false, server.entities))))
    }

    method UpdateProjection(p: Projection<T>, turn: Turn<E>) returns (r: UpsertResult)
      modifies this`known, server`entities
      ensures known == if r.Written? then old(known) + {p.entity} else old(known)
      ensures r.Written? ==> !r.created
      ensures r.Written? || r == Error(NotFound) || r == Error(RequestFailed)
      ensures var seen := turn.disturb(old(server.entities));
              && (r.Written? ==> turn.fate.Served? && server.Applied(seen, p, false, server.entities))
              && (r == Error(NotFound) ==> turn.fate.Served? && p.entity !in seen && server.entities == seen)
              && (r == Error(RequestFailed) ==> Unsure(seen, p, turn))
    {
      var reply := server.Update(p, turn);
      if reply == EntityNotFound { return Error(NotFound); }
      if reply != Done { return Error(RequestFailed); }
      known := known + {p.entity};
      return Written(false);
    }

    /** Creates, or updates what turns out to exist: requests at, at + 1. */
    method CreateProjection(p: Projection<T>, env: nat -> Turn<E>, at: nat)
        returns (r: UpsertResult, next: nat)
      modifies this`known, server`entities
      ensures at < next <= at + 2
      ensures known - {p.entity} == old(known) - {p.entity}
      ensures !r.Written? ==> known == if next == at + 1 then old(known) else old(known) + {p.entity}
      ensures r.Written? || r == Error(NotFound) || r == Error(RequestFailed)
      ensures var seen := Met(env, at, next - at, old(server.entities));
              && (r.Written? ==>
                    && p.entity in known && env(next - 1).fate.Served?
                    && server.Applied(seen, p, r.created, server.entities))
              && (r == Error(NotFound) ==> p.entity !in seen && server.entities == seen && next == at + 2)
              && (r == Error(RequestFailed) ==> Unsure(seen, p, env(next - 1)))
      ensures Quiet(env) ==>
        && r == Written(p.entity !in old(server.entities))
        && server.entities == old(server.Upserted(p))
        && next == at + if r.created then 1 else 2
    {
      ghost var before := server.entities;
      MetLater(env, at, 0, before);
      MetLater(env, at, 1, before);
      var reply := server.Create(p, env(at));
      assert Quiet(env) ==> QuietTurn(env(at)) && QuietTurn(env(at + 1));
      if reply == EntityExists {
        known := known + {p.entity};
        r := UpdateProjection(p, env(at + 1));
        return r, at + 2;
      }
      if reply != Done { return Error(RequestFailed), at + 1; }
      known := known + {p.entity};
      return Written(true), at + 1;
    }

    /** Against any environment: at most three requests; success means that the last
        of them created or updated the entity in the state it met, and Created that it
        was absent there; a failure writes at most once; no other entity's place in the
        cache changes; and after a failure the entity is cached as the last
        answer about it says. Against a quiet server, whatever the cache says:
        at most two requests, success, Created exactly when the entity was absent,
        and the server ends as after an upsert without a cache. */
    method UpsertProjection(p: Projection<T>, present: bool, env: nat -> Turn<E>)
        returns (r: UpsertResult, requests: nat)
      modifies this`known, server`entities
      ensures requests <= 3
      ensures !present ==> r == Error(NilEntity) && requests == 0
      ensures present && p.triples == [] ==> r == Error(NoTriples) && requests == 0
      ensures requests == 0 ==> known == old(known) && server.entities == old(server.entities)
      ensures known - {p.entity} == old(known) - {p.entity}
      ensures requests > 0 ==> r.Written? || r == Error(NotFound) || r == Error(RequestFailed)
      ensures requests > 0 ==>
        var seen := Met(env, 0, requests, old(server.entities));
        && (r.Written? ==>
              && p.entity in known && env(requests - 1).fate.Served?
              && server.Applied(seen, p, r.created, server.entities))
        && (r == Error(NotFound) ==> p.entity !in seen && server.entities == seen)
        && (r == Error(RequestFailed) ==> Unsure(seen, p, env(requests - 1)))
      ensures !r.Written? && 0 < requests < 3 ==>
        (p.entity in known <==> if requests == 1 then p.entity in old(known) else p.entity !in old(known))
      ensures !r.Written? && requests == 3 ==> p.entity in old(known) && p.entity in known
      ensures present && p.triples != [] && Quiet(env) ==>
        && 1 <= requests <= 2
        && r == Written(p.entity !in old(server.entities))
        && server.entities == old(server.Upserted(p))
        && (requests == 1 <==> (p.entity in old(known) <==> p.entity in old(server.entities)))
    {
      if !present { return Error(NilEntity), 0; }
      if p.triples == [] { return Error(NoTriples), 0; }
      requests := 0;
      assert Quiet(env) ==> QuietTurn(env(0));
      ghost var before := server.entities;
      MetLater(env, 0, 0, before);
      if p.entity in known {
        r := UpdateProjection(p, env(0));
        requests := 1;
        if r.Written? { return r, 1; }
        if r.error != NotFound { return r, 1; }
        known := known - {p.entity};
      }
      ghost var at := requests;
      r, requests := CreateProjection(p, env, requests);
      if at == 1 { MetLater(env, 0, requests - 1, before); }
    }
  }
}
