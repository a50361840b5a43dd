/**
 The HostStatus resource and the agent's configuration, as far as the agent's logic reads or
 writes them (pkg/k8s/apis/bmc.spidernet.io/v1beta1).
 */
module Api {
  import opened GoStrings

  const HOST_TYPE_DHCP := "dhcp"
  const LABEL_IP_ADDR := "bmc.spidernet.io/ipAddr"
  const LABEL_CLIENT_MODE := "bmc.spidernet.io/mode"
  const LABEL_CLIENT_ACTIVE := "bmc.spidernet.io/dhcp-ip-active"

  datatype BasicInfo = BasicInfo(
    kind: string, ipAddr: string, secretName: string, secretNamespace: string,
    https: bool, port: int, mac: string, activeDhcpClient: bool)

  datatype LogEntry = LogEntry(time: string, message: string)

  datatype LogStruct = LogStruct(total: int, warning: int, latest: Option<LogEntry>, latestWarning: Option<LogEntry>)

  datatype Status = Status(
    healthy: bool, clusterAgent: string, lastUpdateTime: string,
    basic: BasicInfo, info: map<string, string>, log: LogStruct)

  datatype HostStatus = HostStatus(labels: map<string, string>, status: Status)

  // An object right after creation: the API server drops the status of a create request.
  const EMPTY_LOG := LogStruct(0, 0, None, None)
  const EMPTY_STATUS := Status(false, "", "", BasicInfo("", "", "", "", false, 0, "", false), map[], EMPTY_LOG)

  type Store = map<string, HostStatus>

  datatype Endpoint = Endpoint(port: int, https: bool, secretName: string, secretNamespace: string)

  datatype DhcpConfig = DhcpConfig(enableDhcpDiscovery: bool, enableBindDhcpIP: bool, enableBindStaticIP: bool)

  datatype AgentConfig = AgentConfig(clusterAgentName: string, endpoint: Endpoint, dhcp: Option<DhcpConfig>)

  datatype ApiError = Conflict | ServerTimeout | TooManyRequests | OtherError
}
