/** The parts of the Kubernetes resources that the controller reads. */
module Resources {

  datatype PathType = Prefix | Exact | ImplementationSpecific

  /** A Service, or some other object of the cluster. */
  datatype Backend = Service(name: string, port: int) | Resource

  datatype HTTPPath = HTTPPath(path: string, pathType: PathType, backend: Backend)

  datatype Rule = Rule(host: string, paths: seq<HTTPPath>)

  datatype Ingress = Ingress(uid: string, annotations: map<string, string>, rules: seq<Rule>, tlsEntries: nat)
}
