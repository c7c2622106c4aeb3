/** The pools of a MinIO tenant, as its resource has them. */
module Tenants {
  import opened Text

  /** A volume claim template: the requests, which may be absent, and the access modes. */
  datatype Claim = Claim(requests: Option<map<string, int>>, accessModes: seq<string>)

  /** Servers and volumes are int32 in the resource. */
  datatype Pool = Pool(name: string, servers: int, volumesPerServer: int, claim: Option<Claim>)
}
