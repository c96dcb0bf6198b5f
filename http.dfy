/** The request/response pair a middleware works on: the bearer token the token parser left in
    `req.token`, the `req.user` slot, the responses sent and the calls made to `next`. */
module Http {
  import opened Js

  /** A response: status code and JSON body. */
  datatype Reply = Reply(status: int, body: Value)

  /** `{ message }` */
  function Message(text: string): Value {
    Obj(map["message" := Str(text)])
  }

  /** What one middleware does with a request: answer it, or hand it on to `next`. */
  datatype Step = Respond(status: int, body: Value) | Continue

  class Exchange {
    const token: Value
    var user: Value
    var replies: seq<Reply>
    var nextCalls: nat

    constructor (token: Value, user: Value)
      ensures this.token == token && this.user == user && replies == [] && nextCalls == 0
    {
      this.token := token;
      this.user := user;
      replies := [];
      nextCalls := 0;
    }

    /** `res.status(status).json(body)` */
    method Send(status: int, body: Value)
      modifies this
      ensures replies == old(replies) + [Reply(status, body)]
      ensures user == old(user) && nextCalls == old(nextCalls)
    {
      replies := replies + [Reply(status, body)];
    }

    /** `next()` */
    method Next()
      modifies this
      ensures nextCalls == old(nextCalls) + 1
      ensures user == old(user) && replies == old(replies)
    {
      nextCalls := nextCalls + 1;
    }
  }

  /** The exchange after a middleware took `step`: exactly one response sent and `req.user` left
      alone, or exactly one call to `next` with `req.user` set to `user`. */
  twostate predicate Took(ex: Exchange, step: Step, user: Value)
    reads ex
  {
    match step
    case Respond(code, body) =>
      ex.replies == old(ex.replies) + [Reply(code, body)] && ex.nextCalls == old(ex.nextCalls) && ex.user == old(ex.user)
    case Continue =>
      ex.replies == old(ex.replies) && ex.nextCalls == old(ex.nextCalls) + 1 && ex.user == user
  }
}
