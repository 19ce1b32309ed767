/** Resolving a dynamic access link to the key it leads to. */
module DynamicKeys {
  import opened Wrappers
  import opened Models
  import opened Store
  import opened Repositories

  class LinkAPI {
    const repo: Repository

    constructor (repo: Repository)
      ensures this.repo == repo
    {
      this.repo := repo;
    }

    /** User tokens first; any error there, not only a miss, goes on to the tokens of keys. */
    method ResolveDynamicToken(token: string) returns (r: Result<Id, Error>, ghost usersUp: bool)
      requires repo.Valid()
      modifies repo`faults
      ensures repo.Valid() && repo.View() == old(repo.View())
      ensures r.Ok? ==> Resolves(repo.View(), token, usersUp, r.value)
      ensures repo.faults >= old(repo.faults) && (!usersUp ==> repo.faults > old(repo.faults))
      ensures repo.faults == old(repo.faults) ==> (r.Ok? <==> exists key: Id :: Resolves(repo.View(), token, true, key))
    {
      ghost var db := repo.View();
      var user := repo.GetUserByDynamicToken(token);
      usersUp := user != Err(Unavailable);
      if user.Ok? {
        var primary := repo.users[user.value].primaryKeyID;
        assert forall u <- db.users :: SameLink(db.users[u], db.users[user.value]) ==> u == user.value;
        assert PrimaryIsTheirs(db, user.value);
        if primary.None? { return Err(NotFound), usersUp; }
        var key := repo.GetKey(primary.value);
        r := if key.Ok? then Ok(primary.value) else Err(key.error);
        assert Resolves(db, token, true, primary.value);
      } else {
        r := repo.GetKeyByDynamicToken(token);
        if r.Ok? { assert Resolves(db, token, usersUp, r.value); }
      }
    }

    /** With every call through, a holder's own link leads to their primary key, and nowhere if they have none. */
    method FollowLink(u: Id) returns (r: Result<Id, Error>)
      requires repo.Valid() && u in repo.users
      modifies repo`faults
      ensures repo.View() == old(repo.View())
      ensures repo.faults == old(repo.faults) ==>
        && (r.Ok? <==> repo.users[u].primaryKeyID.Some?)
        && (r.Ok? ==> repo.users[u].primaryKeyID == Some(r.value) && Holds(repo.View(), u, r.value))
    {
      ghost var db, usersUp := repo.View(), true;
      r, usersUp := ResolveDynamicToken(repo.users[u].token);
      assert forall v <- db.users :: SameLink(db.users[v], db.users[u]) ==> v == u;
      assert PrimaryIsTheirs(db, u);
      if db.users[u].primaryKeyID.Some? {
        assert Resolves(db, db.users[u].token, true, db.users[u].primaryKeyID.value);
      }
    }
  }
}
