/** The part of a resource manager that the model looks at. A manager is never changed
    after it is built; `serial` stands for the identity of the object. */
module Identity {
  datatype ResourceManager = ResourceManager(serial: nat, awsAccountID: string, awsRegion: string, awsPartition: string)
}
