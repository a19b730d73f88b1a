/** The normalized GPU record every detector produces (internal/gpu/model.go). */
module Gpu {
  import opened ModelIdentity

  datatype GPU = GPU(
    id: string,
    uuid: string,
    vendor: string,
    name: string,
    memoryTotal: nat,
    memoryUsed: nat,
    driverVersion: string,
    cudaVersion: string,
    computeCapability: string,
    utilization: Option<int>,
    utilizationMemory: Option<int>,
    temperature: Option<int>,
    pciBusID: string,
    source: string)
}
