/** What a route hands back to Express. */
module Http {
  /**
   * `res.status(status).json(body)`, or an exception that escapes the route: `catchErrors`
   * passes it to Express's error handler and the request fails.
   */
  datatype Reply<B> = Reply(status: int, body: B) | Thrown(reason: string)
}
