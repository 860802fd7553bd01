/** The result codes the formatters of firewall rules share. */
module IptablesDef {
  datatype IptablesResult = IptablesOk | IptablesNoData | IptablesException
}
