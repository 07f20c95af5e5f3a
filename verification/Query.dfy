/** Query options: closures that each set one field, applied in order to the defaults. */
module Query {
  import opened Ids

  datatype Order = Asc | Desc

  datatype Options = Options(limit: int, token: Option<seq<Byte>>, order: Order)

  datatype QueryOption =
    | WithLimit(limit: int)
    | WithToken(token: Option<seq<Byte>>)
    | WithOrder(order: Order)

  datatype ProtoOptions = ProtoOptions(pageSize: nat, pagingToken: Option<seq<Byte>>, order: Order)

  const DEFAULT_LIMIT := 100

  /** The limit of the last option that sets a positive one. */
  function LastLimit(options: seq<QueryOption>): (limit: int)
    ensures limit >= 1
  {
    if options == [] then DEFAULT_LIMIT
    else
      var last := options[|options| - 1];
      if last.WithLimit? && last.limit > 0 then last.limit else LastLimit(options[..|options| - 1])
  }

  function LastToken(options: seq<QueryOption>): Option<seq<Byte>>
  {
    if options == [] then None
    else
      var last := options[|options| - 1];
      if last.WithToken? then last.token else LastToken(options[..|options| - 1])
  }

  function LastOrder(options: seq<QueryOption>): Order
  {
    if options == [] then Asc
    else
      var last := options[|options| - 1];
      if last.WithOrder? then last.order else LastOrder(options[..|options| - 1])
  }

  /** Later options win; a limit that is not positive is ignored. */
  method ApplyOptions(options: seq<QueryOption>) returns (applied: Options)
    ensures applied == Options(LastLimit(options), LastToken(options), LastOrder(options))
    ensures applied.limit >= 1
  {
    applied := Options(DEFAULT_LIMIT, None, Asc);
    for i := 0 to |options|
      invariant applied == Options(LastLimit(options[..i]), LastToken(options[..i]), LastOrder(options[..i]))
    {
      assert options[..i + 1][..i] == options[..i];
      match options[i]
      case WithLimit(limit) =>
        if limit > 0 {
          applied := applied.(limit := limit);
        }
      case WithToken(token) =>
        applied := applied.(token := token);
      case WithOrder(order) =>
        applied := applied.(order := order);
    }
    assert options[..|options|] == options;
  }

  function FromProtoOptions(proto: Option<ProtoOptions>): seq<QueryOption>
  {
    match proto
    case None => []
    case Some(p) =>
      [WithOrder(p.order)]
      + (if p.pageSize > 0 then [WithLimit(p.pageSize)] else [])
      + (if p.pagingToken.Some? then [WithToken(p.pagingToken)] else [])
  }

  /** What a client asks for is what the store is asked for, with the default
      limit when the client names none. */
  lemma ProtoOptionsReachTheStore(proto: Option<ProtoOptions>)
    ensures var options := FromProtoOptions(proto);
            && LastLimit(options) == (if proto.Some?
                                      && proto.value.pageSize > 0 then proto.value.pageSize else 100)
            && LastToken(options) == (if proto.Some? then proto.value.pagingToken else None)
            && LastOrder(options) == (if proto.Some? then proto.value.order else Asc)
  {
    if proto.Some? {
      var p := proto.value;
      var first := [WithOrder(p.order)];
      AppendedOptionWins([], WithOrder(p.order));
      var second := if p.pageSize > 0 then first + [WithLimit(p.pageSize)] else first;
      AppendedOptionWins(first, WithLimit(p.pageSize));
      AppendedOptionWins(second, WithToken(p.pagingToken));
      assert [] + first == first;
      assert FromProtoOptions(proto) == if p.pagingToken.Some? then second + [WithToken(p.pagingToken)] else second;
    }
  }

  lemma AppendedOptionWins(options: seq<QueryOption>, last: QueryOption)
    ensures LastLimit(options + [last]) == if last.WithLimit? && last.limit > 0 then last.limit else LastLimit(options)
    ensures LastToken(options + [last]) == if last.WithToken? then last.token else LastToken(options)
    ensures LastOrder(options + [last]) == if last.WithOrder? then last.order else LastOrder(options)
  {
    assert (options + [last])[..|options|] == options;
  }
}
