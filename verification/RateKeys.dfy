// The key of a record in the limiter of src/services/rate_limiter.rs: client, separator,
// endpoint.
module RateKeys {
  const SEPARATOR := '\U{0001}'

  function RecordKey(client: string, endpoint: string): (r: string) {
    client + [SEPARATOR] + endpoint
  }

  predicate Plain(client: string) {
    SEPARATOR !in client
  }

  lemma {:induction false} SeparatorFound(a: string, b: string, x: string, y: string)
    requires Plain(a) && Plain(b) && RecordKey(a, x) == RecordKey(b, y)
    ensures a == b && x == y
  {
    if a == "" {
      EmptyClient(b, x, y);
    } else if b == "" {
      EmptyClient(a, y, x);
    } else {
      var key := RecordKey(a, x);
      assert key[0] == a[0] == b[0];
      assert key[1..] == RecordKey(a[1..], x) == RecordKey(b[1..], y);
      SeparatorFound(a[1..], b[1..], x, y);
      assert a == [a[0]] + a[1..] && b == [b[0]] + b[1..];
    }
  }

  lemma FirstOfClient(b: string)
    ensures b == "" || (b + [SEPARATOR])[0] in b
  {
  }

  lemma EmptyClient(b: string, x: string, y: string)
    requires Plain(b) && RecordKey("", x) == RecordKey(b, y)
    ensures b == "" && x == y
  {
    var key := RecordKey("", x);
    assert key[0] == SEPARATOR && key[0] == (b + [SEPARATOR])[0];
    FirstOfClient(b);
    assert key[1..] == x && RecordKey(b, y)[|b| + 1..] == y;
  }

  // Two pairs share a counter exactly when they are the same pair, whatever the endpoints
  // are called, as long as no client holds the separator.
  lemma KeyIsInjective(client: string, endpoint: string, other: string, otherEndpoint: string)
    requires Plain(client) && Plain(other)
    ensures RecordKey(client, endpoint) == RecordKey(other, otherEndpoint)
      <==> client == other && endpoint == otherEndpoint
  {
    if RecordKey(client, endpoint) == RecordKey(other, otherEndpoint) {
      SeparatorFound(client, other, endpoint, otherEndpoint);
    }
  }

  // A client that does hold it can share the counter of another.
  lemma SeparatorCollides(client: string, middle: string, endpoint: string)
    ensures RecordKey(client + [SEPARATOR] + middle, endpoint) == RecordKey(client, middle + [SEPARATOR] + endpoint)
  {
  }

  // The prefix that reset_limit looks for picks out exactly the records of one client.
  lemma PrefixIsClient(client: string, other: string, endpoint: string)
    requires Plain(client) && Plain(other)
    ensures RecordKey(client, "") <= RecordKey(other, endpoint) <==> client == other
  {
    var key := RecordKey(other, endpoint);
    if RecordKey(client, "") <= key {
      var rest := key[|client| + 1..];
      assert key == RecordKey(client, "") + rest == RecordKey(client, rest);
      SeparatorFound(client, other, rest, endpoint);
    }
  }
}
