/**
 The cache of connection data per HostStatus (pkg/agent/hoststatus/data/cache.go). Each method is
 one atomic step. The entries are pointers that never leave the cache, so a map of values stands for them.
 */
module HostCache {
  import opened GoStrings
  import opened Api
  import opened LeaseDiff

  datatype HostConnectCon = HostConnectCon(info: BasicInfo, username: string, password: string, dhcpHost: bool)

  type Hosts = map<string, HostConnectCon>

  predicate UsesSecret(v: HostConnectCon, name: string, namespace: string) {
    v.info.secretName == name && v.info.secretNamespace == namespace
  }

  function WithSecret(v: HostConnectCon, name: string, namespace: string, username: string, password: string)
    : HostConnectCon
  {
    if UsesSecret(v, name, namespace) then v.(username := username, password := password) else v
  }

  class HostCache {
    var data: Hosts

    constructor ()
      ensures data == map[]
    {
      data := map[];
    }

    method Add(name: string, value: HostConnectCon)
      modifies this
      ensures data == old(data)[name := value]
    {
      data := data[name := value];
    }

    method Delete(name: string)
      modifies this
      ensures data == old(data) - {name}
    {
      data := data - {name};
    }

    method Get(name: string) returns (r: Option<HostConnectCon>)
      ensures r == if name in data then Some(data[name]) else None
    {
      if name in data {
        return Some(data[name]);
      }
      return None;
    }

    method GetAll() returns (r: Hosts)
      ensures r == data
    {
      r := map[];
      var rest := data.Keys;
      while rest != {}
        invariant rest <= data.Keys && r.Keys == data.Keys - rest
        invariant forall k :: k in r ==> r[k] == data[k]
      {
        var k :| k in rest;
        r := r[k := data[k]];
        rest := rest - {k};
      }
    }

    method GetDhcpClientInfo() returns (r: Hosts)
      ensures forall k :: k in r <==> k in data && data[k].dhcpHost
      ensures forall k :: k in r ==> r[k] == data[k]
    {
      r := map[];
      var rest := data.Keys;
      while rest != {}
        invariant rest <= data.Keys
        invariant forall k :: k in r <==> k in data && k !in rest && data[k].dhcpHost
        invariant forall k :: k in r ==> r[k] == data[k]
      {
        var k :| k in rest;
        if data[k].dhcpHost {
          r := r[k := data[k]];
        }
        rest := rest - {k};
      }
    }

    method GetStaticClientInfo() returns (r: Hosts)
      ensures forall k :: k in r <==> k in data && !data[k].dhcpHost
      ensures forall k :: k in r ==> r[k] == data[k]
    {
      r := map[];
      var rest := data.Keys;
      while rest != {}
        invariant rest <= data.Keys
        invariant forall k :: k in r <==> k in data && k !in rest && !data[k].dhcpHost
        invariant forall k :: k in r ==> r[k] == data[k]
      {
        var k :| k in rest;
        if !data[k].dhcpHost {
          r := r[k := data[k]];
        }
        rest := rest - {k};
      }
    }

    // UpdateSecet: every entry of the secret gets the credentials; exactly the entries that changed are listed, once
    // each.
    method UpdateSecret(name: string, namespace: string, username: string, password: string)
      returns (changedHosts: seq<string>)
      modifies this
      ensures data.Keys == old(data).Keys
      ensures forall k :: k in data ==> data[k] == WithSecret(old(data)[k], name, namespace, username, password)
      ensures Distinct(changedHosts)
      ensures forall k :: k in changedHosts <==> k in data && data[k] != old(data)[k]
    {
      changedHosts := [];
      var rest := data.Keys;
      while rest != {}
        invariant rest <= data.Keys == old(data).Keys
        invariant forall k :: k in rest ==> data[k] == old(data)[k]
        invariant forall k :: k in data && k !in rest ==>
          data[k] == WithSecret(old(data)[k], name, namespace, username, password)
        invariant Distinct(changedHosts)
        invariant forall k :: k in changedHosts <==> k in data && k !in rest && data[k] != old(data)[k]
      {
        var k :| k in rest;
        var changed := false;
        var v := data[k];
        if v.info.secretName == name && v.info.secretNamespace == namespace {
          if v.username != username {
            v := v.(username := username);
            changed := true;
          }
          if v.password != password {
            v := v.(password := password);
            changed := true;
          }
        }
        assert v == WithSecret(data[k], name, namespace, username, password) && (changed <==> v != data[k]);
        data := data[k := v];
        if changed {
          DistinctSnoc(changedHosts, k);
          changedHosts := changedHosts + [k];
        }
        rest := rest - {k};
      }
    }
  }
}
