/** Collecting addresses from several contacts endpoints at once, in order of completion. */
module ContactsFetcher {
  import opened Wrappers
  import opened Addresses

  /** How one endpoint answered. */
  datatype Fetch = Fetched(addrs: seq<Multiaddr>) | Failed

  /** What the endpoints that answered delivered, in order of completion. */
  function Delivered(fetches: seq<Fetch>): seq<Multiaddr>
  {
    if fetches == [] then []
    else Delivered(Front(fetches)) + if Last(fetches).Fetched? then Last(fetches).addrs else []
  }

  function Truncated<T>(s: seq<T>, n: nat): seq<T>
  {
    if |s| <= n then s else s[..n]
  }

  /** Endpoints that complete later only add at the end. */
  lemma {:induction false} DeliveredGrows(fetches: seq<Fetch>, i: nat)
    requires i <= |fetches|
    ensures Delivered(fetches[..i]) <= Delivered(fetches)
    decreases |fetches| - i
  {
    if i == |fetches| {
      assert fetches[..i] == fetches;
    } else {
      DeliveredGrows(fetches, i + 1);
      assert Front(fetches[..i + 1]) == fetches[..i];
    }
  }

  /** Every address of every batch fetched is delivered, at its place behind the earlier batches, and nothing
      else is; failed fetches deliver nothing. */
  lemma DeliveredExactly(fetches: seq<Fetch>, i: nat)
    requires i < |fetches|
    ensures var before, after := |Delivered(fetches[..i])|, |Delivered(fetches[..i + 1])|;
            && before <= after <= |Delivered(fetches)|
            && (fetches[i].Failed? ==> before == after)
            && (fetches[i].Fetched? ==> Delivered(fetches)[before..after] == fetches[i].addrs)
    ensures fetches[..0] == [] && Delivered([]) == [] && fetches[..|fetches|] == fetches
  {
    assert Front(fetches[..i + 1]) == fetches[..i];
    DeliveredGrows(fetches, i + 1);
  }

  /**
   The result does not show that collection stopped early: it is the first `maxAddrs` addresses of
   everything all the endpoints would have delivered, whatever the order of completion.
   */
  method FetchBootstrapAddresses(fetches: seq<Fetch>, maxAddrs: nat) returns (r: seq<Multiaddr>, awaited: nat)
    ensures r == Truncated(Delivered(fetches), maxAddrs)
    ensures awaited <= |fetches|
    ensures awaited < |fetches| ==> |Delivered(fetches[..awaited])| >= maxAddrs
    ensures forall i | 0 < i < awaited && fetches[i - 1].Fetched? :: |Delivered(fetches[..i])| < maxAddrs
  {
    r, awaited := [], 0;
    while awaited < |fetches|
      invariant awaited <= |fetches|
      invariant r == Delivered(fetches[..awaited])
      invariant forall i | 0 < i <= awaited && fetches[i - 1].Fetched? :: |Delivered(fetches[..i])| < maxAddrs
    {
      assert Front(fetches[..awaited + 1]) == fetches[..awaited];
      awaited := awaited + 1;
      if fetches[awaited - 1].Fetched? {
        r := r + fetches[awaited - 1].addrs;
        if |r| >= maxAddrs {
          break;
        }
      }
    }
    DeliveredGrows(fetches, awaited);
    assert fetches[..|fetches|] == fetches;
    if |r| > maxAddrs {
      r := r[..maxAddrs];
    }
  }
}
