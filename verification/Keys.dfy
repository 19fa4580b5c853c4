/** Identity of a DNS question, as the single-flight map and the answer cache key it. */
module Keys {
  datatype QueryKey = QueryKey(name: string, rtype: nat, qclass: nat, dnssecOk: bool, checkingDisabled: bool)
}
