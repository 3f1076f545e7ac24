/**
 `QueryContext`: the link between the dispatcher and the repository, which takes
 exactly one request for every query that is started.
 */
module QueryContext {
  import opened Wrappers
  import opened RepositorySpec
  import Repository

  /** A query message with its ID. Rendering it to wire format is left to the DNS library. */
  datatype Message = Message(qid: nat, query: Query)

  datatype QuerySpec = QuerySpec(proto: Protocol, data: Message)

  class QueryContext {
    const repository: Repository.QueryRepository
    var queryMsg: Option<Message>

    constructor (repo: Repository.QueryRepository)
      ensures repository == repo
    {
      repository := repo;
      queryMsg := None;
    }

    /** One request is taken, stamped with the given ID. None when the repository throws. */
    method Start(qid: nat) returns (spec: Option<QuerySpec>)
      requires repository.Valid() && Ready(repository.View())
      modifies this, repository
      ensures repository.Valid() && Ready(repository.View())
      ensures repository.View() == AfterNext(old(repository.View()))
      ensures spec == match NextQuery(old(repository.View()))
                      case None => None
                      case Some(q) => Some(QuerySpec(q.proto, Message(qid, q)))
    {
      var query := repository.GetNextQuery();
      if query.None? {
        return None;
      }
      queryMsg := Some(Message(qid, query.value));
      return Some(QuerySpec(query.value.proto, queryMsg.value));
    }
  }
}
